# TupleNet model

A model of the parts of TupleNet that carry its invariants, and proofs about them. TupleNet is a
virtual network for Open vSwitch: stateless Go controllers keep the logical topology in etcd, and on
every host a Python agent mirrors it, derives OpenFlow flows with Datalog rules and maintains them
incrementally.

Run `dafny verify dfyconfig.toml` to check everything.

## The four components

**Incremental flow maintenance** (`Entities`, `Zoo`, `ZooObject`, `FlowRules`, `FlowSync`, `Ecmp`,
`Rounds`, `Agent`, `AgentExample`, `Evaluation`, `AgentObject`, `Resync`, `RoutePriority`, `Keys`,
`Installed`). Entities
carry a state (ADD = 1, NO = 0, DEL = -100); a rule joins facts and sums their states; the sum
decides whether a flow is added, deleted or left alone. `EntityZoo` is the state of the zoo as a value, with every operation
as a function; `ZooObject.LogicalEntityZoo` is the object whose methods are proved equal to them.
A `Derivation` names the facts that a rule joined; `FlowSync.Derived` is the independent, stateless
reading of the rules, and the main theorems (`Agent.ForcedRoundInstallsExactly`,
`Agent.PollInstallsExactly`) say that the table maintained by sums equals what that reading gives for
the live, touched entities. `Ecmp` does the same for the three bundle aggregates, and
`Evaluation.RunCanGoOn` shows that the rules have an answer in every reachable state. `Installed`
says what the flows are in terms of the entities alone, without rules and derivations, and `Keys` which
entities exclude each other.

**Optimistic allocation** (`IdMap`, `EtcdStore`, `Controller`). Clients read bitmaps, compute, and
commit compare-and-swap transactions. In a run (`Controller.Run`) a commit step carries an arbitrary
earlier reading of the store, which covers every interleaving of the reads; `Controller.Client`
builds the same transactions with the loops of the source.

**Packet pipeline and redirect** (`Pipeline`, `Tunnel`, `Delivery`, `Routed`). Each flow table is a
relation between a packet and a verdict; `Tunnel` connects chassis by tunnels that carry the frame, the
tunnel id and `tun_metadata0` only. `Delivery` and `Routed` follow packets from port to port over the
installed flows: on one switch, through a tunnel, and across a router.

**etcd mirror** (`LinkMaster`, `Mirror`, `Records`, `TextCodec`, `Ingest`). Snapshot, watch, pools,
resync, and the record text that the Go side writes and both sides read. `Ingest` follows a record from
the key and the text that the controller stores to the entity that the agent adds.

## Conditions of the theorems

The unconditional forms are false; each condition is a predicate of its own.

- Incremental flows: `Agent.Assumed` in every state of a run. At most one live port per interface id
  and one live tunnel port per chassis, low 16 address bits unique on a switch, one next-hop router
  behind every port that a static route names as its outport, routes that leave through a port of
  their own router, networks stored as network addresses, one next hop per router and network, no
  router port peered with a patch port, no tunnel to the own chassis. The agent is not a gateway.
  `AgentExample.FirstPoll` is a run that meets them.
- Resync: `CleanSnapshot` (records of etcd without shared unique keys), `RoomForAll` (64 members per
  ILK group, before and after together), which is exact (`Resync.ResyncSucceedsIff`), and that no
  key of a record is stale, which is exact as well (`Resync.ResyncInstallsIff`). `IdxExact` (no entity
  was rejected at its second key) is enough for every snapshot; `Resync.AddKeepsExactIff` says exactly
  which adds break it.
- Allocation, each condition with its equivalence: a saved switch or router comes without an id
  (`NewDevices`, exact by `SaveKeepsSafeIff`); a delete gives back no claim of a device that stays when
  it commits (`FreesOnlyRemoved`, exact by `DeleteKeepsSafeIff`; current records meet it,
  `CurrentFrees`); the bitmap that an address is taken from has a free id from network+2 up to 0xffff,
  or none below the network (`HasRoom`, by `AttemptKeepsSafeIff` up to a revived book that marks the
  address by chance). Exact conservation also needs `Steady`: no book vanishes between the two reads of
  SaveSwitchPort (exact by `AttemptKeepsExactIff`) and a delete gives back what it removes (exact by
  `DeleteKeepsExactIff`). `CarriedIdIsUnmarked`, `StaleDeleteFreesOther` and `RevivedBook` are inputs
  that break them.
- Tunnels: `FabricOk` (OpenFlow ports of a bridge are distinct, and the DSR port is none of them) for
  redirect: any flow state means any set of facts up to `PortsDistinct`, so no stale fact gives the
  number of a tunnel port to a local port. For the two-tunnel bound also `Agree`: every chassis holds
  entities of one logical configuration, at least those that an on-demand agent publishes from the
  start, and every port is bound where it says. `BouncesForever` shows why.
- Delivery: `NoClash` (facts that share no id, no unique key, no interface id and no low 16 address
  bits on one switch; the live, touched entities meet it) and `PortsDistinct`. For the way across a
  router also: no translation on it, no other port of it with the same low 16 address bits, and a longest
  route (`Routed.BestPort`).
- Mirror: no incremental read happens in the case that `BatchExactIff` names (`NoLostDelete`), and no
  watch is registered again before any revision was seen while known keys are stored (`AllSighted`).
  `LostDelete`, `BlindRestartIff` and `MissedPut` show why.

## Where the code surprises

- A comment at src/tuplenet/lcp/lsp_egress.py:73 says that table 22 decreases the TTL before the
  back edge to the lookup; the rule does not. Termination rests on `LookupSettles` instead.
- A rejected entity leaves index entries (`StaleKeyBlocks`) and its ILK index
  (`RejectedAddLeaksIndex`) behind.
- Touching does not move the version of the zoo; `PollInstallsExactly` holds all the same, because
  touched ports without a known chassis are inert.
- The uint16 search for a free id has no exit; it wraps (`WrappedAllocation`), and on a full bitmap
  it never ends.
- An automatic route of prefix 0 and index 0 has priority 0, that of the default drop
  (`PrioritiesFit`).
- The pools forget a delete (`LostDelete`), and SaveSwitchPort can write back a deleted book
  (`RevivedBook`).
- The text of a unique key has no separators: two routes that differ in network and prefix length can
  exclude each other (`RoutesRunTogether`).
- A recursive delete names the bitmap of its switch or router, and fails when there is none
  (`DeleteComparesIff`).
- A router port without a peer is written as "peer=" and arrives with an empty peer
  (`RouterPortArrives`).
- A watch that is registered again before any revision was seen asks for revision 0
  (src/tuplenet/lcp/link_master.py:361-364), which etcd's watch API reads as "from now": what was
  committed before is never delivered (`MissedPut`).

## Model

| member | source | states |
|---|---|---|
| `EntityZoo.ZooRunKeepsInv` | src/tuplenet/lcp/logicalview.py:579-811 | In every state that adds, replacements, deletions, touches and sweeps reach from an empty zoo: live entities have pairwise distinct unique keys and own their index entries, no deleted entity shares an id or unique key with a settled one, the ILK indices of one group (live or in the sink) are distinct and below 64, and the fact base is exactly the rows of the touched entities |
| `EntityZoo.AddKeepsInv` | src/tuplenet/lcp/logicalview.py:669-690 | The same invariant across one add, whether the entity is new, identical, a replacement, refused by the allocator or rejected at a unique key |
| `EntityZoo.AddInstalls` | src/tuplenet/lcp/logicalview.py:601-683 | What an add leaves, for every zoo: properties that are live already or a full group change nothing; otherwise the old entity of the id goes to the sink, and the new properties are live with the index, new to the rules, if and only if the keys are free after that; nothing else changes |
| `EntityZoo.ChangeInstalls` | src/tuplenet/lcp/logicalview.py:601-617 | A change of a live entity is live afterwards when each of its keys was free or its own |
| `EntityZoo.AddPublishesIff` | src/tuplenet/lcp/logicalview.py:174-181 | An accepted entity is a fact at once, unless an on-demand agent holds it back: a port without a peer that is not bound here, or another chassis |
| `EntityZoo.MoveKeepsInv` | src/tuplenet/lcp/logicalview.py:713-734 | The same invariant when an entity is marked deleted and moved to the sink |
| `EntityZoo.TouchKeepsInv` | src/tuplenet/lcp/logicalview.py:184-204 | The same invariant when an untouched entity starts to publish its row |
| `EntityZoo.SweepKeepsInv` | src/tuplenet/lcp/logicalview.py:790-811 | The same invariant across a sweep, which empties the sink, keeps the live ids and settles every live entity |
| `EntityZoo.CleanSinkKeepsInv` | src/tuplenet/lcp/logicalview.py:805-811 | Eliminating the sink leaves exactly the rows of the live touched entities, also when the sink holds several entries of one id, and frees no index that a live entity holds |
| `EntityZoo.LiveKeysDistinct` | src/tuplenet/lcp/logicalview.py:643-666 | Owning the entries of the unique-key index makes the keys of live entities pairwise distinct |
| `EntityZoo.TakeIndexIsFresh` | src/tuplenet/lcp/logicalview.py:96-110 | An index that the allocator hands out is below 64 and held by no live or deleted entity of the group |
| `EntityZoo.ExhaustedIff` | src/tuplenet/lcp/logicalview.py:83-88 | A constructor fails for want of an index exactly when 64 indices of its group are taken |
| `EntityZoo.RejectedAddLeaksIndex` | src/tuplenet/lcp/logicalview.py:601-617 | After an add and a sweep the index is still taken, and a live entity holds it if and only if the entity was accepted |
| `EntityZoo.SweepFreesIndices` | src/tuplenet/lcp/logicalview.py:90-94 | After the sink is emptied an index of a group is taken if and only if it was and no entity of the sink had it |
| `Keys.SameIdIff` | src/tuplenet/lcp/logicalview.py:675-683 | An add meets the entity of the same kind and name, and no other; interfaces and tunnel ports are kinds of their own |
| `Keys.PortsConflictIff` | src/tuplenet/lcp/logicalview.py:163-164 | Ports of one switch, or of one router, exclude each other if and only if they share the address or the MAC |
| `Keys.OwnersApart` | src/tuplenet/lcp/logicalview.py:247-248 | Ports with the same address and MAC exclude each other if and only if they have the same owner |
| `Keys.IdsConflictIff` | src/tuplenet/lcp/logicalview.py:290 | Switches and routers share one space of ids and exclude each other exactly by their id |
| `Keys.OneDifferenceDecides` | src/tuplenet/lcp/logicalview.py:341-342 | Static routes, translations, chassis and interfaces that differ in at most one property of the key exclude each other if and only if they differ in none |
| `Keys.RoutesRunTogether` | src/tuplenet/lcp/logicalview.py:341-342 | Concrete case: the key text has no separators, so two routes that differ in network and prefix length exclude each other |
| `Keys.KindsApart` | src/tuplenet/lcp/logicalview.py:643-655 | Entities of different kinds never exclude each other, except switches and routers |
| `Keys.SameGroupIff` | src/tuplenet/lcp/logicalview.py:96-110 | Two members of one router share an ILK group if and only if kind, network and prefix length agree, although the text of the group has no separators |
| `ZooObject.LogicalEntityZoo.InsertEntityIdxmap` | src/tuplenet/lcp/logicalview.py:643-655 | The loop over the unique keys: success or stop at the first taken key, with the keys before it left inserted |
| `ZooObject.LogicalEntityZoo.DelEntityIdxmap` | src/tuplenet/lcp/logicalview.py:657-666 | The loop that removes the unique keys and gives up at the first missing one |
| `ZooObject.LogicalEntityZoo.MoveEntity2Sink` | src/tuplenet/lcp/logicalview.py:713-734 | Whole new state of the zoo after an entity goes to the sink |
| `ZooObject.LogicalEntityZoo.MoveAllEntity2Sink` | src/tuplenet/lcp/logicalview.py:741-748 | The state after moving every live entity that is not a local port |
| `ZooObject.LogicalEntityZoo.GetIlkIdx` | src/tuplenet/lcp/logicalview.py:96-110 | Index 0 for the first member of a group, a free index for later ones, an error and no change when all 64 are taken |
| `ZooObject.LogicalEntityZoo.AddEntityInZoo` | src/tuplenet/lcp/logicalview.py:601-617 | Retire the entity with the same id, claim the keys, store, publish; or stop at a taken key |
| `ZooObject.LogicalEntityZoo.AddEntity` | src/tuplenet/lcp/logicalview.py:669-690 | add_entity on the object equals the specification and keeps the invariant |
| `ZooObject.LogicalEntityZoo.UpdateEntity` | src/tuplenet/lcp/tuplesync.py:174-185 | All deletions of the pools, then all additions, with the indices that the allocator handed out |
| `ZooObject.LogicalEntityZoo.TouchEntity` | src/tuplenet/lcp/logicalview.py:184-190 | touch on one live entity |
| `ZooObject.LogicalEntityZoo.CleanSink` | src/tuplenet/lcp/logicalview.py:805-811 | The loop over the sink withdraws rows and frees indices |
| `ZooObject.LogicalEntityZoo.SweepEntitySet` | src/tuplenet/lcp/logicalview.py:796-802 | Every new live entity is marked settled and its row republished, in any order of visits |
| `ZooObject.LogicalEntityZoo.SweepZoo` | src/tuplenet/lcp/logicalview.py:790-794 | Sink first, live entities second; keeps the invariant |
| `FlowRules.KeyDetermines` | src/tuplenet/lcp/logicalview.py:844-950 | Two derivations with one flow key are the same derivation as soon as one of them joins settled facts only: deleting a flow never hits a flow that should stay |
| `FlowRules.StaticRouteDetermined` | src/tuplenet/lcp/lrp_ingress.py:156-201 | The same for static routes: priority, network and router id fix the route, its ILK index and the whole next-hop join |
| `FlowRules.AutoRouteDetermined` | src/tuplenet/lcp/lrp_ingress.py:122-142 | The same for automatic routes of router ports |
| `FlowRules.RoutesDetermined` | src/tuplenet/lcp/lrp_ingress.py:122-201 | Automatic and static routes never share a key |
| `FlowRules.PortsDetermined` | src/tuplenet/lcp/lsp_ingress.py:134-183 | The same for destination lookup and for forwarding to a local port or a router |
| `Installed.LocalLookupMeans` | src/tuplenet/lcp/lsp_ingress.py:134-143 | A local lookup flow exists if and only if a port is bound here, or is the end of a link to a router that runs here, with its key and action in terms of switch id, MAC and address |
| `Installed.RemoteLookupMeans` | src/tuplenet/lcp/lsp_ingress.py:145-183 | A remote lookup flow exists if and only if a port is bound on another chassis, or leads to a router there, and a tunnel leads to that chassis; it names this tunnel |
| `Installed.PushOutMeans` | src/tuplenet/lcp/lsp_egress.py:43-51 | Forwarding to an interface: exactly the ports that are bound here, each to its own interface |
| `Installed.EnterRouterMeans` | src/tuplenet/lcp/lsp_egress.py:54-68 | Forwarding to a router: exactly the ends of links, each to the id of its router and of the router port behind it |
| `Installed.AutoRouteMeans` | src/tuplenet/lcp/lrp_ingress.py:122-142 | Automatic routes: exactly the networks of linked router ports, out of that port, with its MAC and its address for ARP requests |
| `Installed.StaticRouteMeans` | src/tuplenet/lcp/lrp_ingress.py:156-201 | Static routes: exactly those whose outport has a router behind it that can be reached; the next hop is that of the route, the sender of ARP requests the address of the outport |
| `Installed.DerivedMeans` | src/tuplenet/lcp/logicalview.py:844-950 | Every flow of the join rules in terms of the entities alone, both directions |
| `Installed.RoundInstallsMeaning` | src/tuplenet/lcp/tuplesync.py:238-283 | After any run a round leaves a flow, bundles aside, if and only if the live, touched entities say so in those terms |
| `FlowSync.SumDecodes` | src/tuplenet/lcp/logicalview.py:22-24 | For fewer than 100 joined facts the sign of the summed states and its remainder by 100 tell new, gone and mixed joins apart, both directions |
| `FlowSync.ConvertTuple2Flow` | src/tuplenet/lcp/tuplesync.py:88-113 | The loop yields the additions and deletions in order |
| `FlowSync.AddedIff` | src/tuplenet/lcp/tuplesync.py:93-99 | A flow is added if and only if some row with a positive sum yields it |
| `FlowSync.DeletedIff` | src/tuplenet/lcp/tuplesync.py:100-108 | A key is deleted if and only if some row with a negative multiple of 100 has it |
| `FlowSync.AddFlowsAt` | src/tuplenet/lcp/commit_ovs.py:364-400 | What a table holds at a key after a batch of additions |
| `FlowSync.NewIsAdded` | src/tuplenet/lcp/tuplesync.py:88-99 | Every derivation that holds now and joins a new fact is in the batch of additions |
| `FlowSync.AddsAreDerived` | src/tuplenet/lcp/tuplesync.py:88-99 | Nothing else is in the batch of additions |
| `FlowSync.GoneIsDeleted` | src/tuplenet/lcp/tuplesync.py:100-108 | Every derivation that held before and joins a deleted fact is in the batch of deletions |
| `FlowSync.DelsAreGone` | src/tuplenet/lcp/tuplesync.py:100-108 | Every deleted key belongs to a derivation over settled and deleted facts with at least one deleted |
| `FlowSync.OneAction` | src/tuplenet/lcp/tuplesync.py:88-99 | Live derivations with one key have one action, so the order of the additions does not matter |
| `FlowSync.RoundIsFullRecompute` | src/tuplenet/lcp/tuplesync.py:238-283 | One round turns the full table of the previous round into the full table of what is live now |
| `Ecmp.AddingRowsAreAll` | src/tuplenet/lcp/ecmp.py:27-42 | When the adding aggregate of a group is not empty it lists every live paired route, old ones included |
| `Ecmp.ReaddingRowsAreAll` | src/tuplenet/lcp/ecmp.py:47-65 | After a deletion the readding aggregate lists exactly the live paired routes |
| `Ecmp.DeletingDrops` | src/tuplenet/lcp/ecmp.py:68-82 | A group with a deleted leg has its old bundle dropped |
| `Ecmp.SettledRows` | src/tuplenet/lcp/ecmp.py:27-82 | A group with neither aggregate has exactly its old rows |
| `Ecmp.LiveMates` | src/tuplenet/lcp/ecmp.py:31-35 | Two live routes of one group leave through different ports, because of the unique key of routes |
| `Ecmp.LegDetermined` | src/tuplenet/lcp/logicalview.py:927-960 | A route fixes its next hop and its tunnel port |
| `Ecmp.BundleIsNoDrop` | src/tuplenet/lcp/ecmp.py:85-111 | The state of a bundle row never looks like a deletion |
| `Ecmp.DropsOtherGroup` | src/tuplenet/lcp/ecmp.py:85-111 | Dropping one group never hits the bundle of another |
| `Ecmp.RoundKeepsBundlesExact` | src/tuplenet/lcp/ecmp.py:27-111 | Through any mix of adding, deleting and readding: after a round the bundle of every router and network lists exactly the tunnel ports of its live paired routes, in route order, and there is no other bundle |
| `Ecmp.BundleIsUnique` | src/tuplenet/lcp/ecmp.py:27-28 | The rows and the order of route ids leave one possible bundle |
| `Ecmp.BeforeIff` | src/tuplenet/lcp/ecmp.py:27-28 | The order of the route ids is the lexicographic order of texts |
| `Installed.BundleRowMeans` | src/tuplenet/lcp/ecmp.py:27-42 | A bundle lists a tunnel port for a route if and only if the next router of the route runs behind it and an alternative of the same router, network and next hop through another port is alive as well |
| `Installed.BundleKeyMeans` | src/tuplenet/lcp/ecmp.py:85-97 | Exactly the packets of the network of the group match its bundle, with the priority of level 2, above every static route of the same prefix length and below every longer one |
| `Rounds.PartOfCommit` | src/tuplenet/lcp/commit_ovs.py:364-377 | A commit acts on bundle flows and on all other flows independently |
| `Rounds.RoundIsExact` | src/tuplenet/lcp/tuplesync.py:238-283 | Both kinds of flows together: one round turns the exact table of the last round into the exact table of now |
| `Rounds.QuietRound` | src/tuplenet/lcp/tuplesync.py:88-113 | A round over settled facts touches nothing: neither the join rules nor the bundle aggregates return a row |
| `Rounds.InstalledLookupIsLongestMatch` | src/tuplenet/lcp/lrp_ingress.py:122-219 | On an exact table, the highest-priority match for a destination on a router is the longest-prefix match among all installed routes, both directions |
| `Rounds.InertKeepsTable` | src/tuplenet/lcp/logicalview.py:155-168 | Touching a port whose chassis is not known changes no flow |
| `Agent.RoundIsSound` | src/tuplenet/lcp/tuplesync.py:243-265 | The reachable zoo meets the conditions of a round: settled facts are protected from deleted ones |
| `Agent.RunKeepsAgentInv` | src/tuplenet/lcp/tuplesync.py:238-316 | Along every run the table is exact for what the last round published, and exact for what is live whenever no round is due |
| `Agent.ForcedRoundInstallsExactly` | src/tuplenet/lcp/tuplesync.py:238-283 | Incremental equals full recompute: after any run from an empty zoo a round leaves exactly the flows of the live, touched entities |
| `Agent.PollInstallsExactly` | src/tuplenet/lcp/tuplesync.py:300-316 | The same after every poll, also one that skips the round because the version did not move |
| `Agent.UnknownDstKeepsAgentInv` | src/tuplenet/lcp/state_update.py:87-118 | An unknown-destination report keeps that invariant although it does not move the version |
| `Agent.AddTouchesGateway` | src/tuplenet/lcp/logicalview.py:696-705 | An on-demand agent touches the chassis of an accepted pinned router, or an accepted chassis that a live router is pinned on, if it knows it, and nothing else |
| `Agent.UnknownDstTouches` | src/tuplenet/lcp/state_update.py:87-118 | An unknown destination touches exactly the ports with its address and their known chassis |
| `AgentExample.FirstPoll` | src/tuplenet/lcp/tuplesync.py:238-316 | Concrete run that meets every condition of the run theorems: a switch, a port of this host and its interface are added, and the first poll installs exactly its lookup and its forwarding flow |
| `Evaluation.RowsExist` | src/tuplenet/lcp/tuplesync.py:238-265 | The rules always have an answer: for every fact base that a round can meet there is a finite list of rows, of the join rules and of the bundles, whose ports can be put in route order |
| `Evaluation.RunCanGoOn` | src/tuplenet/lcp/tuplesync.py:238-316 | After any run from an empty zoo another round, forced or by a poll, can be taken, and it leaves exactly the flows of the live, touched entities: the run theorems speak about rounds that exist |
| `AgentObject.TupleNetAgent.DeleteOneByOne` | src/tuplenet/lcp/commit_ovs.py:384-391 | The fallback loop of deletions equals the batch |
| `AgentObject.TupleNetAgent.AddOneByOne` | src/tuplenet/lcp/commit_ovs.py:393-400 | The fallback loop of additions equals the batch |
| `AgentObject.TupleNetAgent.CommitFlows` | src/tuplenet/lcp/commit_ovs.py:364-400 | Deletions strictly before additions, whichever batch fails |
| `AgentObject.TupleNetAgent.UpdateOvsSide` | src/tuplenet/lcp/tuplesync.py:238-283 | The first round replaces whatever the switch held, later ones commit; the zoo is swept |
| `AgentObject.TupleNetAgent.NeedRecompute` | src/tuplenet/lcp/tuplesync.py:164-172 | Whether the version moved, remembering the new one |
| `AgentObject.TupleNetAgent.UpdateLogicalView` | src/tuplenet/lcp/tuplesync.py:300-316 | A poll on the object equals the poll of the run model |
| `AgentObject.TupleNetAgent.AddEntity` | src/tuplenet/lcp/logicalview.py:669-705 | add_entity with the gateway chassis that it touches |
| `AgentObject.TupleNetAgent.ProcessUnknownDst` | src/tuplenet/lcp/state_update.py:87-118 | Touch the ports with the address and their known chassis; a round only if one is known |
| `Resync.ResyncInstallsSnapshot` | src/tuplenet/lcp/tuplesync.py:188-201 | When no entity left stale index entries: after moving everything that came from etcd to the sink and adding the snapshot, the live set is the snapshot beside the untouched local ports, no constructor failed, and again no stale entry is left |
| `Resync.ResyncInstallsIff` | src/tuplenet/lcp/tuplesync.py:188-201 | For every zoo, stale index entries or not, and every snapshot of distinct records with room: no constructor fails, local ports stay untouched, and a record is live afterwards if and only if none of its keys is still in the index after the move; so the zoo holds the snapshot if and only if no record has such a key |
| `Resync.ResyncSucceedsIff` | src/tuplenet/lcp/tuplesync.py:188-201 | For every reachable allocator and every snapshot of distinct records: the resync goes through without a failing constructor if and only if old members and records of every group together fit its 64 indices |
| `Resync.ZooRunKeepsWithin` | src/tuplenet/lcp/logicalview.py:96-110 | In every reachable zoo the allocated indices of a group are among 0..63 |
| `Resync.FullGroupRejects` | src/tuplenet/lcp/logicalview.py:83-110 | A group whose 64 indices are taken rejects its records in a resync, even unchanged ones |
| `Resync.AddKeepsExactIff` | src/tuplenet/lcp/logicalview.py:643-655 | An add leaves an index entry without an owner if and only if the entity is rejected at its second key |
| `Resync.StaleKeyBlocks` | src/tuplenet/lcp/logicalview.py:601-617 | Concrete case: a rejected port leaves its address blocked, so a port that conflicts with nothing is rejected |
| `RoutePriority.CalPriorityInjective` | src/tuplenet/lcp/lrp_ingress.py:20-27 | Priority fixes prefix, level and index |
| `RoutePriority.PriorityIsPreference` | src/tuplenet/lcp/lrp_ingress.py:20-27 | Comparing priorities is comparing prefix, then level, then index |
| `RoutePriority.PriorityLookupIsLongestMatch` | src/tuplenet/lcp/lrp_ingress.py:122-219 | Highest-priority match if and only if longest-prefix match (RFC 1812, section 5.2.4.3), ECMP before static before automatic, then by index; the winner is unique |
| `RoutePriority.SomeRouteWins` | src/tuplenet/lcp/lrp_ingress.py:122-219 | A covered destination has a winner |
| `RoutePriority.PrioritiesFit` | src/tuplenet/lcp/lrp_ingress.py:20-27 | Priorities fit 16 bits and beat the default drop, except an automatic route of prefix 0 and index 0 |
| `Pipeline.LocalLookupResolves` | src/tuplenet/lcp/lsp_ingress.py:134-143 | A destination that the lookup finds locally is one that table 22 forwards |
| `Pipeline.LookupSettles` | src/tuplenet/lcp/lsp_ingress.py:120-221 | After the lookup a packet is to be output, or table 22 forwards it: the back edge to the lookup cannot fire again in this pass |
| `Pipeline.StepBurnsFuel` | src/tuplenet/lcp/lsp_egress.py:43-122 | Every resubmission lowers the measure of echo flag, TTL, back edge not yet taken and table rank |
| `Pipeline.RouterBurnsFuel` | src/tuplenet/lcp/lrp_ingress.py:66-110 | The echo reply resets the TTL only once and every router pass takes one from it (RFC 1812, section 5.3.1) |
| `Pipeline.EveryRunEnds` | src/tuplenet/lcp/lsp_egress.py:43-122 | No run through the cyclic table graph is longer than its measure, for any topology and options |
| `Pipeline.StepIsTotal` | src/tuplenet/lcp/lrp_egress.py:92-195 | Every table has a verdict for every packet |
| `Tunnel.EmbedExtract` | src/tuplenet/lcp/middle_table.py:81-107 | Embedding and extracting restores datapath, ports and flags, the redirect bit among them |
| `Tunnel.MetadataLayout` | src/tuplenet/lcp/middle_table.py:81-92 | Where the tunnel id and tun_metadata0 carry datapath, source, destination and flags |
| `Tunnel.StepKeepsFlag` | src/tuplenet/lcp/lsp_ingress.py:223-245 | The redirect bit is never cleared and a flagged packet never reaches the redirect table |
| `Tunnel.TunnelledIsEmbedded` | src/tuplenet/lcp/middle_table.py:61-73 | What goes into a tunnel was embedded immediately before |
| `Tunnel.RedirectAtMostOnce` | src/tuplenet/lcp/middle_table.py:61-107 | Over any number of chassis and any flow state in which the ports of a bridge have distinct numbers, a packet executes the redirect flow at most once |
| `Tunnel.RedirectTableOnce` | src/tuplenet/lcp/middle_table.py:61-73 | The same of the trace alone: no two of its packets leave the redirect table |
| `Tunnel.RemoteLookupAgrees` | src/tuplenet/lcp/lsp_ingress.py:145-183 | When chassis share one logical configuration, on-demand ones with untouched entities among them and each with ILK indices of its own, a remote lookup sends the packet to a chassis that forwards it |
| `Tunnel.TwoTunnels` | src/tuplenet/lcp/lsp_egress.py:69-102 | One logical-switch traversal crosses at most two tunnels, for every liveness outcome and also where on-demand chassis redirect what they do not know |
| `Tunnel.TwoHops` | src/tuplenet/lcp/lsp_egress.py:69-102 | The same of the trace alone: the chassis changes at most twice |
| `Tunnel.TraversalEnds` | src/tuplenet/lcp/physical_flow.py:17-40 | That traversal is over after a bounded number of matches on all chassis together, on-demand ones included |
| `Tunnel.BouncesForever` | src/tuplenet/lcp/lsp_egress.py:69-84 | Without agreement two chassis bounce one packet any number of times |
| `Delivery.LeadsAlways` | src/tuplenet/lcp/physical_flow.py:17-40 | What the delivery theorems say about runs: each of them ends with the stated verdict, after a bounded number of matches |
| `Delivery.LocalDelivery` | src/tuplenet/lcp/physical_flow.py:30-40 | A frame for the MAC of another port of the switch, bound on the same chassis, leaves by the interface of that port unchanged, whatever else is installed |
| `Delivery.RemoteDelivery` | src/tuplenet/lcp/lsp_ingress.py:164-183 | A frame for the MAC of a port that is bound on another chassis goes through the tunnel to it and leaves there by the interface of that port unchanged |
| `Delivery.ArrivesIff` | src/tuplenet/lcp/middle_table.py:109-128 | After a tunnel only a redirected packet without a destination MAC is routed again; any other goes to the egress of its switch |
| `Delivery.UnknownPortIsDropped` | src/tuplenet/lcp/physical_flow.py:17-40 | A packet from a port that is neither bound nor a tunnel is dropped |
| `Delivery.UnknownDatapathDrops` | src/tuplenet/lcp/lsp_ingress.py:223-262 | On a switch or a router that is not known to the host a packet is dropped at the next table that reads the datapath |
| `Delivery.EntersRouter` | src/tuplenet/lcp/lsp_egress.py:54-122 | A packet that was resolved to the end of a link enters the router with the id of the router as datapath and of the router port as source |
| `Delivery.EchoIsAnsweredIff` | src/tuplenet/lcp/lrp_ingress.py:66-92 | A router answers exactly the echo requests for its own addresses: addresses exchanged, TTL 255, sent back to where they came from; every other IP packet passes |
| `Delivery.ExitsIff` | src/tuplenet/lcp/lrp_egress.py:185-195 | A routed packet leaves to the switch behind the port that it was routed to, as if from the peer of this port, or is dropped when there is none |
| `Delivery.MissesIff` | src/tuplenet/lcp/lsp_ingress.py:185-221 | A lookup without a hit leads out of the patch port of the switch; without one an on-demand host asks for a gateway and any other host drops the packet |
| `Delivery.AsksGateway` | src/tuplenet/lcp/lsp_ingress.py:223-255 | A packet without an output port goes to the redirect table if redirection is on and it was not redirected before, and is dropped otherwise |
| `Delivery.RedirectMeans` | src/tuplenet/lcp/middle_table.py:61-79 | The redirect table sends exactly to chassis that a router is pinned on, with the redirect bit in the metadata |
| `Delivery.UnresolvedIff` | src/tuplenet/lcp/lrp_egress.py:89-183 | A next hop without a known MAC: dropped if redirected before or in front of a patch port, else flagged and sent to a gateway |
| `Delivery.TakesArpRepliesIff` | src/tuplenet/lcp/lsp_ingress.py:33-63 | A gateway, and no other host, keeps ARP replies from its ports for the controller |
| `Delivery.UntunnelIff` | src/tuplenet/lcp/lsp_ingress.py:82-118 | Only IP packets leave by the DSR port, and only their MAC changes |
| `Delivery.ReturnsToLookup` | src/tuplenet/lcp/lsp_egress.py:69-84 | A packet whose destination is not on the host is flagged as redirected and looked up again |
| `Delivery.TranslatedGoesToRouter` | src/tuplenet/lcp/lsp_ingress.py:120-132 | A frame for the MAC of a translated address goes to the end of a link of the router that translates it |
| `Delivery.MacSpellsAddress` | src/tuplenet/lcp/logicalview.py:26-34 | The MAC of a translated address is f2:01 and the bytes of the address |
| `Delivery.HopsByTunnel` | src/tuplenet/lcp/middle_table.py:81-107 | A packet changes the chassis only through tunnel ports of each towards the other, and keeps nothing but frame and metadata |
| `Routed.PicksBest` | src/tuplenet/lcp/lrp_ingress.py:122-219 | When the network of a router port covers the destination and every other network on the router that covers it is shorter, the switch picks the route of this port and no other |
| `Routed.CrossesRouter` | src/tuplenet/lcp/lrp_egress.py:28-195 | Through the router: TTL less one, the MAC of the router port as source, the MAC of the destination, out to the switch behind the port |
| `Routed.RoutedDelivery` | src/tuplenet/lcp/lrp_ingress.py:66-219 | Two switches and the router between them: a packet for the address of a port of the other switch leaves by the interface of that port, routed once, through the longest route |
| `Routed.BundlePicksMember` | src/tuplenet/lcp/ecmp.py:85-111 | A bundle flow picks the tunnel port of one of its members, for a network that covers the destination, or none |
| `Routed.JudgeIff` | src/tuplenet/lcp/ecmp.py:117-152 | After a bundle has picked a port: out of the port of the longest route of the router behind it, towards its next hop; dropped when no port is up; other packets pass |
| `Routed.RouteMeans` | src/tuplenet/lcp/lrp_ingress.py:122-201 | What passes the routing table without a bundle has taken the route of a router port, to the destination, or a static route, to its next hop; destination port and source MAC are those of the router port |
| `Routed.ResolveIff` | src/tuplenet/lcp/lrp_egress.py:28-78 | The destination MAC becomes that of a port behind the router port that has the address of the next hop and is bound or leads to a router; without one it is what was learned, and nothing else changes |
| `IdMap.LeastFreeIs` | src/control/controllers/bookkeeping/id.go:24-34 | The search yields the least free id of its range, or none if all are taken |
| `IdMap.NextFromIs` | src/control/controllers/bookkeeping/id.go:37-47 | The wrapping search yields a free id, and every id that it passed is taken; it never ends if and only if all 65536 ids are taken |
| `IdMap.IDMap.NextID` | src/control/controllers/bookkeeping/id.go:24-34 | Least free id from 1, marked; an error leaves the bitmap |
| `IdMap.IDMap.NextIDFrom` | src/control/controllers/bookkeeping/id.go:37-47 | The uint16 loop: from the start upwards, then from 0 |
| `IdMap.IDMap.OccupyMasked` | src/control/controllers/bookkeeping/id.go:49-56 | Marks the low 16 bits and tells whether they were free |
| `IdMap.IDMap.ReturnMasked` | src/control/controllers/bookkeeping/id.go:58-65 | Frees the low 16 bits |
| `IdMap.SubnetArithmetic` | src/control/controllers/etcd3/controller.go:510-526 | Low bits of network and broadcast, and what or-ing an id into the network yields, for prefixes up to 30 |
| `IdMap.AllocationInSubnet` | src/control/controllers/etcd3/controller.go:490-530 | A reported address is in network+2..broadcast-1 with its low 16 bits equal to the marked id, if and only if some id from network+2 up to 0xffff was free |
| `IdMap.AllocationSucceedsIff` | src/control/controllers/etcd3/controller.go:490-530 | Without wrap-around it succeeds if and only if an id below the broadcast address is free |
| `IdMap.AddressKeepsId` | src/control/controllers/etcd3/controller.go:510-526 | For every prefix: the address carries the marked id if and only if that id is not below the network |
| `IdMap.IdAboveNetworkIff` | src/control/controllers/etcd3/controller.go:510-526 | The allocated id is not below the network if and only if the bitmap that was read has a free id from network+2 up to 0xffff, or no free id below the network |
| `IdMap.StoredAddressFreesId` | src/control/controllers/etcd3/controller.go:731-742 | Parsing the stored dotted address frees exactly the marked id |
| `IdMap.SubnetCapacity` | src/control/controllers/etcd3/controller.go:490-530 | On an empty book exactly 2^(32-p)-3 consecutive allocations succeed, for prefixes 16..30 |
| `IdMap.WrappedAllocation` | src/control/controllers/etcd3/controller.go:514-526 | Concrete book on which the search wraps and the network address itself is handed out |
| `EtcdStore.ApplyAt` | src/control/controllers/etcd3/controller.go:815-863 | What a transaction leaves at a key does not depend on the order of its operations |
| `EtcdStore.Store.Txn` | src/control/controllers/etcd3/controller.go:815-863 | All comparisons hold and nothing overlaps: everything is applied; otherwise nothing |
| `EtcdStore.PrefixDeletesChildren` | src/control/controllers/etcd3/controller.go:781-788 | Deleting key + "/" as a prefix hits exactly the children of that key, on the text of the paths |
| `EtcdStore.PathIs` | src/control/controllers/etcd3/controller.go:20-32 | The path of every key, in full |
| `EtcdStore.PathsDiffer` | src/control/controllers/etcd3/controller.go:112-146 | Different devices have different paths |
| `Controller.SaveDrafts` | src/control/controllers/etcd3/controller.go:591-675 | Every saved device takes an id that was free when its bitmap was read, no two take the same one, and the working copies hold nothing else |
| `Controller.SaveWritesAll` | src/control/controllers/etcd3/controller.go:677-693 | The store after a successful Save, key by key |
| `Controller.DeleteDeletesAll` | src/control/controllers/etcd3/controller.go:744-806 | The store after a successful Delete, key by key |
| `Controller.RecursiveDeleteIsExact` | src/control/controllers/etcd3/controller.go:744-812 | A recursive delete of a switch or router removes exactly its key, the keys that continue it with "/", and its address bitmap |
| `Controller.RunKeepsSafe` | src/control/controllers/etcd3/controller.go:490-812 | Allocation safety over all interleavings of Save, Delete and SaveSwitchPort on arbitrarily old reads: live device ids are distinct and marked, ports of one owner have distinct low 16 bits, all marked in its book |
| `Controller.RunKeepsExact` | src/control/controllers/etcd3/controller.go:591-812 | Conservation: every bitmap is exactly the set of ids of its live devices, as long as no book vanishes between the two reads of SaveSwitchPort and deletes give back the claims of what they remove |
| `Controller.AttemptKeepsExactIff` | src/control/controllers/etcd3/controller.go:532-585 | A successful attempt keeps the book exact if and only if the book was there at the second read or empty at the first |
| `Controller.AttemptKeepsSafeIff` | src/control/controllers/etcd3/controller.go:532-585 | A successful attempt on an exact store keeps it safe if and only if the bitmap of its first read has a free id from network+2 up to 0xffff, or none below the network, or the book was missing at the second read and the first reading marks the stored address |
| `Controller.SaveKeepsSafeIff` | src/control/controllers/etcd3/controller.go:591-699 | A successful Save on a safe and exact store, from any reading, keeps it safe if and only if no switch and no router comes with an id of its own |
| `Controller.DeleteKeepsSafeIff` | src/control/controllers/etcd3/controller.go:703-812 | A successful Delete on a safe store keeps it safe if and only if every stored device whose claim it gives back is removed with it |
| `Controller.DeleteKeepsExactIff` | src/control/controllers/etcd3/controller.go:703-812 | A successful Delete on a safe and exact store keeps every bitmap exact if and only if, besides, every removed device that does not go with its bitmap has its claim given back |
| `Controller.CurrentFrees` | src/control/controllers/etcd3/controller.go:703-812 | Records that are still what is stored meet both conditions |
| `Controller.RoomAbove` | src/control/controllers/etcd3/controller.go:510-526 | The room that the safety theorem asks for, read off the bitmap: it is there if and only if the id that the search then finds is not below the network |
| `Controller.RevivedBook` | src/control/controllers/etcd3/controller.go:551-566 | Concrete case: a commit revives ids of a book that was deleted in between |
| `Controller.CarriedIdIsUnmarked` | src/control/controllers/etcd3/controller.go:642-652 | Concrete case: a device saved with an id of its own is not marked |
| `Controller.StaleDeleteFreesOther` | src/control/controllers/etcd3/controller.go:731-768 | Concrete case: deleting a stale record frees the id of another port |
| `Controller.Client.Draft` | src/control/controllers/etcd3/controller.go:636-675 | The loop over the devices, with its error returns |
| `Controller.Client.WriteBack` | src/control/controllers/etcd3/controller.go:677-691 | The loop over the bitmaps, in any order of the Go map |
| `Controller.Client.Save` | src/control/controllers/etcd3/controller.go:591-699 | Save on the shared store: result, completed devices and new contents |
| `Controller.Client.Drop` | src/control/controllers/etcd3/controller.go:781-788 | Comparisons and deletions for the keys of one device |
| `Controller.Client.Collect` | src/control/controllers/etcd3/controller.go:744-779 | The loop over the devices of Delete |
| `Controller.Client.GiveBack` | src/control/controllers/etcd3/controller.go:791-804 | Compare every bitmap, drop it when empty, update it when changed |
| `Controller.Client.Delete` | src/control/controllers/etcd3/controller.go:703-812 | Delete on the shared store |
| `Controller.Client.SaveSwitchPort` | src/control/controllers/etcd3/controller.go:532-585 | The retry loop: a success stored the port under the address computed in that turn; otherwise the client wrote nothing |
| `Controller.SaveAllKeeps` | src/control/controllers/etcd3/controller.go:636-675 | Save reports one device per device given, each as it was given except for the id of a switch or router that came without one |
| `Controller.SaveStores` | src/control/controllers/etcd3/controller.go:591-699 | A successful Save stores every device under its own key, which was free, with the fields it came with; a switch or router without an id gets one from 1 to 65535 |
| `Controller.SaveSucceedsIff` | src/control/controllers/etcd3/controller.go:591-699 | A Save goes through if and only if its devices are new and differ from each other and every bitmap still is what was read |
| `Controller.AttemptMeans` | src/control/controllers/etcd3/controller.go:532-585 | A turn of SaveSwitchPort goes through if and only if the port is new and the bitmap is the one read first, or missing if it was missing the second time; it then writes the address and the bitmap with the id, and nothing else |
| `Controller.PlainDeleteRemoves` | src/control/controllers/etcd3/controller.go:703-812 | A delete that is not recursive removes the devices given and nothing else |
| `Controller.DeepDeleteRemoves` | src/control/controllers/etcd3/controller.go:703-812 | A recursive delete removes besides, and only, the address bitmaps of its switches and routers and what is stored below them |
| `Controller.DeleteComparesIff` | src/control/controllers/etcd3/controller.go:703-812 | The comparisons of a Delete hold if and only if everything that it names is stored, bitmaps of a recursive delete included, and every bitmap that gets ids back is what was read |
| `Records.MarshalTuplenet` | src/control/controllers/etcd3/shared.go:13-58 | The loop over tagged fields, skipping omitted empties |
| `Records.UnmarshalTuplenet` | src/control/controllers/etcd3/shared.go:62-124 | Fields set in place from the pairs of the text |
| `Records.ParseValue` | src/tuplenet/lcp/link_master.py:31-46 | The Python loop over the pairs |
| `Records.RecordRoundTrip` | src/control/controllers/etcd3/shared.go:13-124 | Unmarshal of Marshal restores every field, omitted empties included, for texts without commas and outer spaces and numbers that fit |
| `Records.PythonReadsTheSame` | src/tuplenet/lcp/link_master.py:31-46 | parse_value reads the same text into the map of written tags |
| `Records.LastPairDecides` | src/tuplenet/lcp/link_master.py:31-46 | In any text the last pair with a tag decides |
| `Records.LastFieldIsSet` | src/control/controllers/etcd3/shared.go:87-97 | Of several fields with a tag the last is set, and none for an unknown tag |
| `Records.UnsignedReads` | src/control/controllers/etcd3/shared.go:113-115 | Any number is read back up to 64 bits and cut to the width of its field; a malformed one is 0 |
| `Records.SignedReads` | src/control/controllers/etcd3/shared.go:110-112 | The same for signed numbers, clamped to 64 bits, with or without a plus sign |
| `Records.TruncatedIs` | src/control/controllers/etcd3/shared.go:110-115 | Cutting to the width of a field keeps the number modulo that width and ends in the range of the field |
| `Records.TrimsAround` | src/control/controllers/etcd3/shared.go:106-109 | Exactly the white space around a text is cut |
| `Records.SchemasAreGood` | src/control/logicaldev/router.go:3-40 | The tags of all device records meet the conditions of the round trip |
| `TextCodec.SplitJoin` | src/control/controllers/etcd3/shared.go:57-100 | Splitting undoes joining when no part holds the separator |
| `TextCodec.QuadReadsBack` | src/control/controllers/bookkeeping/id.go:77-96 | Parsing a formatted address gives the address back |
| `TextCodec.QuadReadsFour` | src/control/controllers/bookkeeping/id.go:78-88 | What follows a fourth dot is ignored |
| `TextCodec.OctetReads` | src/control/controllers/bookkeeping/id.go:78-88 | A part above 255 counts as 255, a malformed one as 0 |
| `Ingest.DevicesAreMirrored` | src/tuplenet/lcp/link_master.py:12-24 | Every device key that the controller writes is mirrored under its own type |
| `Ingest.WatchedIff` | src/tuplenet/lcp/link_master.py:10-12 | The directory that the agent watches holds the devices and nothing else that the controller stores |
| `Ingest.SwitchPortArrives` | src/tuplenet/lcp/logicalview.py:619-641 | The record that the controller saves for a switch port arrives as exactly that port: id and owner from the key, the rest from the text, omitted peer and chassis as none |
| `Ingest.RouterPortArrives` | src/tuplenet/lcp/logicalview.py:619-641 | The same for a router port; a prefix length above 32 arrives as 32, and a port without a peer arrives with an empty one |
| `Ingest.StaticRouteArrives` | src/tuplenet/lcp/logicalview.py:619-641 | The same for a static route |
| `Ingest.NatArrives` | src/tuplenet/lcp/logicalview.py:619-641 | The same for an address translation |
| `Ingest.ChassisArrives` | src/tuplenet/lcp/logicalview.py:619-641 | The same for a chassis |
| `Ingest.SwitchArrives` | src/tuplenet/lcp/logicalview.py:619-641 | The same for a switch, for every id that its 32-bit field holds |
| `Ingest.RouterArrives` | src/tuplenet/lcp/logicalview.py:619-641 | The same for a router |
| `Ingest.FieldsAreCut` | src/control/logicaldev/router.go:3-40 | What the Go side keeps of a number that does not fit its field: 8 bits of a prefix length, 32 of an id, all of a tick |
| `Ingest.AddressReadIff` | src/tuplenet/lcp/logicalview.py:36-41 | An address is accepted exactly in its canonical form |
| `Ingest.MacReadIff` | src/tuplenet/lcp/logicalview.py:155-160 | A MAC is accepted exactly when hexadecimal digits and nothing else are left without its separators |
| `LinkMaster.SnapshotReplayConverges` | src/tuplenet/lcp/link_master.py:249-298 | A snapshot and the replay of every event after its top revision give the contents at the end of the history, although some events are applied twice |
| `LinkMaster.ReplayAt` | src/tuplenet/lcp/link_master.py:298-328 | Replay at a key is decided by the last event on it |
| `LinkMaster.MarkMeans` | src/tuplenet/lcp/link_master.py:48-56 | The type of a key is its part before the last one, exactly when that is one of the eight words |
| `LinkMaster.PoolsStayDisjoint` | src/tuplenet/lcp/link_master.py:307-328 | No key is in both pools |
| `LinkMaster.PoolsAt` | src/tuplenet/lcp/link_master.py:307-328 | What the pools hold for a key in terms of its last two events |
| `LinkMaster.BatchExactIff` | src/tuplenet/lcp/link_master.py:307-328 | A drained batch agrees with event-by-event replay on a key unless, and only unless, the view held it and its last put was cancelled by a later delete |
| `LinkMaster.LostDelete` | src/tuplenet/lcp/link_master.py:307-317 | Concrete window in which a delete is lost |
| `Mirror.WatchMaster.WatchCallback` | src/tuplenet/lcp/link_master.py:298-328 | One event on the object: revision and pools |
| `Mirror.WatchMaster.Compacted` | src/tuplenet/lcp/link_master.py:282-292 | A compaction gives up the pools and asks for everything |
| `Mirror.WatchMaster.RpcError` | src/tuplenet/lcp/link_master.py:293-296 | A stream error disables the watch and keeps pools and revision |
| `Mirror.CanceledIgnores` | src/tuplenet/lcp/link_master.py:298-301 | A watch that has ended hears no event and no compaction |
| `Mirror.VersionIsTop` | src/tuplenet/lcp/link_master.py:302-304 | The revision is that of the newest event delivered and never goes back |
| `Mirror.ResyncStartsAfter` | src/tuplenet/lcp/link_master.py:282-292 | The resync after a compaction watches from the compacted revision or the newest one of the snapshot on, so nothing that was compacted away is asked for |
| `Mirror.WatchMaster.RunDefaultWatch` | src/tuplenet/lcp/link_master.py:357-365 | A disabled watch starts again after the last revision with empty pools |
| `Mirror.WatchMaster.ReadRemoteEntire` | src/tuplenet/lcp/link_master.py:249-276 | The loop over a snapshot: pool and top revision |
| `Mirror.WatchMaster.ReadRemoteIncremental` | src/tuplenet/lcp/link_master.py:410-419 | The pools are handed over and emptied |
| `Mirror.StepKeepsMirror` | src/tuplenet/lcp/link_master.py:218-365 | Every commit, delivery, stream error, compaction and read keeps: view, pools and waiting events make up the store, where a watch that starts before any revision was seen starts from now |
| `Mirror.RunKeepsMirror` | src/tuplenet/lcp/link_master.py:218-328 | The same along every run in which no watch is registered blindly over stored keys |
| `Mirror.BlindRestartIff` | src/tuplenet/lcp/link_master.py:357-365 | A watch registered again before any revision was seen (start_revision 0) keeps the mirror faithful if and only if the store holds no known key at that moment |
| `Mirror.MissedPut` | src/tuplenet/lcp/link_master.py:357-365 | Concrete run for every known key: a first read of an empty store, a stream error, a put and the next read; the put is never delivered |
| `Mirror.MirrorConverges` | src/tuplenet/lcp/link_master.py:218-365 | Once everything was delivered and read, the view is the contents of the store |

## Left out

- NAT rules, lookup priority 5 and NAT ARP in the incremental theorem: several live entities can derive one key there. The pipeline model has the priority-5 flow.
- untunnel rules and ecmp_static_route_judge in the incremental theorem: several live entities can derive one key there.
- The other rules that carry a datapath and a state (ARP, loopback, output, drop, push-out) in the incremental theorem: their key is fixed by one switch or router id, which adds only easy cases.
- Gateway clauses of routing (`_static_route_changed` with a patch port, `_live_lsp_link_lrp`) in the incremental theorem, and the gateway bundle of the redirect table: a bundle is any live gateway port or none in the pipeline.
- Constant flows, trace flows, ARP entries read from a file, and table 201.
- Pipeline.RouterBurnsFuel: what a translation inserts (tables 33 to 36 and 51 to 54 of a router that translates addresses), the routing table of a gateway and the MAC that table 100 has learned are over-approximated as any rewrite that keeps TTL and echo flag, so the model has more runs than the code.
- Uploads to the controller and packets that it injects; conntrack; resubmit depth limits; what BFD measures (any outcome is allowed).
- ZooObject.LogicalEntityZoo.AddEntity: entities are values in the maps of the zoo, so aliasing between the live set and the index is not captured; the sink is one list rather than lists by id.
- AgentObject.TupleNetAgent.CommitFlows: a single flow that fails in the one-by-one fallback is logged and skipped by the source; such failures are not modelled, nor is a failing replacement of all flows.
- Errors of constructors other than an exhausted ILK group (malformed addresses), the clamping of prefixes to 0..32 in the constructors (entities arrive with the prefix already clamped, `WellTyped`), and entity types unknown to the zoo.
- The one constant fact with which the source starts, a chassis row for the flow-based tunnel (src/tuplenet/lcp/logicalview.py:465-466): the fact base of the empty zoo has no facts.
- MAC addresses are compared as text; two spellings of one address count as different.
- update_version_force, tunnel and patch port reconfiguration, revise_lsp_chassis.
- SyncDeviceID and RebuildIPBooks: their compare-and-swap does not cover the device reads.
- The base64 text of a bitmap is taken to be canonical; reads that fail, timeouts and the version key.
- IdMap.IDMap.NextIDFrom: on a full bitmap the source never returns; the model returns no id.
- Controller.Client.SaveSwitchPort: takes the readings of its turns as inputs and may stop after the last one given, where the source goes on.
- Records.MarshalTuplenet: floating-point fields, which no device record has.
- Ingest.SwitchPortArrives: texts that no controller writes and that Python's int() accepts all the same (signs, blanks, 0x in a MAC), a static route without an outport or a translation without a type, which the constructors take as None, a switch id that is not a number, and the order in which the types of a pool are added.
- The communicate watch, which shares the revision of the entity watch, and a failed snapshot read that still registers a watch.
- Threads: add and publish, read and watch again, compute and commit are single steps.
- The CLI, REST handlers, network plugins, packet controller, graph and trace tools, logging and OVSDB.
