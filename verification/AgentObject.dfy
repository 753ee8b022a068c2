// The agent as an object: the zoo, the switch it programs, and the flags that
// decide between a first full installation and an incremental round.

module AgentObject {
  import opened Common
  import opened Entities
  import opened EntityZoo
  import opened FlowRules
  import opened FlowSync
  import opened Agent
  import opened ZooObject

  class TupleNetAgent {
    const zoo: LogicalEntityZoo
    var switchFlows: FlowTable
    var hadCleanOvsFlows: bool
    var prevZooVer: nat
    ghost var installed: set<Atom>

    ghost function View(): AgentState
      reads this, zoo
    {
      AgentState(zoo.State(), switchFlows, hadCleanOvsFlows, prevZooVer, installed)
    }

    constructor (opts: Options, flows: FlowTable)
      ensures fresh(zoo) && zoo.opts == opts && Initial(View()) && switchFlows == flows && Inv(zoo.State())
    {
      zoo := new LogicalEntityZoo(opts);
      switchFlows, hadCleanOvsFlows, prevZooVer, installed := flows, false, 0, {};
    }

    /** Flow by flow, as the fallback of commit_flows does. */
    method DeleteOneByOne(dels: seq<FlowKey>)
      modifies this`switchFlows
      ensures switchFlows == DelFlows(old(switchFlows), dels)
    {
      for i := 0 to |dels|
        invariant switchFlows == DelFlows(old(switchFlows), dels[..i])
      {
        switchFlows := switchFlows - {dels[i]};
        assert dels[..i + 1] == dels[..i] + [dels[i]];
      }
      assert dels[..|dels|] == dels;
    }

    method AddOneByOne(adds: seq<OvsFlow>)
      modifies this`switchFlows
      ensures switchFlows == AddFlows(old(switchFlows), adds)
    {
      for i := 0 to |adds|
        invariant switchFlows == AddFlows(old(switchFlows), adds[..i])
      {
        switchFlows := switchFlows[adds[i].key := adds[i].action];
        assert adds[..i + 1][..i] == adds[..i];
      }
      assert adds[..|adds|] == adds;
    }

    /** commit_flows: the batch of deletions, then the batch of additions. A failing
        batch changes nothing; what is left is then done flow by flow. */
    method CommitFlows(adds: seq<OvsFlow>, dels: seq<FlowKey>, delBatchOk: bool, addBatchOk: bool)
      modifies this`switchFlows
      ensures switchFlows == AddFlows(DelFlows(old(switchFlows), dels), adds)
    {
      var delsLeft, addsLeft := dels, adds;
      if delBatchOk {
        switchFlows := DelFlows(switchFlows, dels);
        delsLeft := [];
        if addBatchOk {
          switchFlows := AddFlows(switchFlows, adds);
          return;
        }
      }
      DeleteOneByOne(delsLeft);
      AddOneByOne(addsLeft);
      assert delBatchOk ==> DelFlows(DelFlows(old(switchFlows), dels), []) == DelFlows(old(switchFlows), dels);
    }

    /** update_ovs_side on the rows that the rules returned. */
    method UpdateOvsSide(lflows: seq<LFlow>, delBatchOk: bool, addBatchOk: bool)
      requires Inv(zoo.State())
      modifies this, zoo
      ensures View() == Round(old(View()), lflows) && Inv(zoo.State())
    {
      hide Inv, EntityZoo.SweepZoo;
      installed := Published(zoo.entitySet);
      zoo.SweepZoo();
      var adds, dels := ConvertTuple2Flow(lflows);
      if !hadCleanOvsFlows {
        hadCleanOvsFlows := true;
        switchFlows := map[];
        AddOneByOne(adds);
      } else {
        CommitFlows(adds, dels, delBatchOk, addBatchOk);
      }
    }

    /** need_recompute. */
    method NeedRecompute() returns (recompute: bool)
      modifies this`prevZooVer
      ensures recompute == (zoo.zooVer != old(prevZooVer)) && prevZooVer == zoo.zooVer
    {
      recompute := zoo.zooVer != prevZooVer;
      prevZooVer := zoo.zooVer;
    }

    /** The end of update_logical_view. */
    method UpdateLogicalView(lflows: seq<LFlow>, delBatchOk: bool, addBatchOk: bool)
      requires Inv(zoo.State())
      modifies this, zoo
      ensures View() == Poll(old(View()), lflows) && Inv(zoo.State())
    {
      hide Inv, Round;
      var recompute := NeedRecompute();
      if recompute {
        UpdateOvsSide(lflows, delBatchOk, addBatchOk);
      }
    }

    method TouchEach(ids: seq<Id>)
      requires Inv(zoo.State())
      modifies zoo
      ensures zoo.State() == TouchAll(old(zoo.State()), ids) && Inv(zoo.State())
    {
      hide Inv, Touch;
      for i := 0 to |ids|
        invariant Inv(zoo.State()) && zoo.State() == TouchAll(old(zoo.State()), ids[..i])
      {
        zoo.TouchEntity(ids[i]);
        assert ids[..i + 1][..i] == ids[..i];
      }
      assert ids[..|ids|] == ids;
    }

    /** add_entity with the gateway chassis that it touches. */
    method AddEntity(p: Props) returns (idx: nat)
      requires WellTyped(p) && Inv(zoo.State())
      modifies zoo
      ensures zoo.State() == AddAndTouch(old(zoo.State()), p, idx, zoo.opts) && Inv(zoo.State())
    {
      hide Inv, EntityZoo.AddEntity, WellTyped, TouchAll;
      var before := zoo.zooVer;
      idx := zoo.AddEntity(p);
      if zoo.zooVer != before {
        TouchEach(GatewayOf(zoo.State(), p, zoo.opts));
      }
    }

    /** process_unknow_dst: the ports with the address, then their known chassis. */
    method ProcessUnknownDst(ip: nat, lflows: seq<LFlow>, delBatchOk: bool, addBatchOk: bool)
      returns (ghost lsps: seq<Id>, ghost chassis: seq<Id>)
      requires Inv(zoo.State())
      modifies this, zoo
      ensures forall id :: id in lsps ==> id in old(zoo.entitySet) && old(zoo.entitySet)[id].props.Lsp?
      ensures Searched(old(zoo.State()), ip, lsps, chassis)
      ensures View() == UnknownDst(old(View()), lsps, chassis, lflows) && Inv(zoo.State())
    {
      hide Inv, Touch, Round, TouchAll;
      var ports, hosts: seq<Id> := [], [];
      var todo := zoo.entitySet.Keys;
      while todo != {}
        invariant todo <= zoo.entitySet.Keys
        invariant forall id :: id in ports <==>
          id in zoo.entitySet && id !in todo && zoo.entitySet[id].props.Lsp? && zoo.entitySet[id].props.ip == ip
        invariant forall c :: c in hosts <==>
          c in zoo.entitySet && c.etype == TypeChassis &&
          exists id :: id in ports && zoo.entitySet[id].props.chassis == Some(c.uuid)
      {
        var id :| id in todo;
        todo := todo - {id};
        var p := zoo.entitySet[id].props;
        if p.Lsp? && p.ip == ip {
          if p.chassis.Some? && Id(TypeChassis, p.chassis.value) in zoo.entitySet {
            hosts := hosts + [Id(TypeChassis, p.chassis.value)];
          }
          ports := ports + [id];
        }
      }
      lsps, chassis := ports, hosts;
      TouchEach(ports);
      TouchEach(hosts);
      if hosts != [] {
        UpdateOvsSide(lflows, delBatchOk, addBatchOk);
      } else {
        TouchNone(TouchAll(old(zoo.State()), ports));
      }
    }
  }
}
