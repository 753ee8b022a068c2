// The record text "a=b,c=d" that the Go controllers write and that both the Go
// and the Python side read: unmarshalling what was marshalled restores every field,
// and parse_value of the agent reads the same text into the map of the written tags.

module Records {
  import opened Common
  import opened TextCodec

  // ----- Text pieces -----

  /** unicode.IsSpace. */
  predicate IsSpace(c: char) {
    c == ' ' || '\t' <= c <= '\r' || c as int in {0x85, 0xa0, 0x1680, 0x2028, 0x2029, 0x202f, 0x205f, 0x3000} ||
    0x2000 <= c as int <= 0x200a
  }

  function TrimLeft(s: string): string {
    if s != "" && IsSpace(s[0]) then TrimLeft(s[1..]) else s
  }

  function TrimRight(s: string): string {
    if s != "" && IsSpace(s[|s| - 1]) then TrimRight(s[..|s| - 1]) else s
  }

  /** strings.TrimSpace. */
  function TrimSpace(s: string): string {
    TrimRight(TrimLeft(s))
  }

  predicate NoOuterSpace(s: string) {
    s != "" ==> !IsSpace(s[0]) && !IsSpace(s[|s| - 1])
  }

  /** SplitN(s, "=", 2) and split('=', 1): none when there is no separator. */
  function SplitOnce(s: string, sep: char): Option<(string, string)> {
    if s == "" then None
    else if s[0] == sep then Some(("", s[1..]))
    else
      match SplitOnce(s[1..], sep)
      case None => None
      case Some((a, b)) => Some(([s[0]] + a, b))
  }

  lemma {:induction false} SplitOnceAt(a: string, b: string, sep: char)
    requires sep !in a
    ensures SplitOnce(a + [sep] + b, sep) == Some((a, b))
  {
    var s := a + [sep] + b;
    if a == "" {
      assert s[1..] == b;
    } else {
      SplitOnceAt(a[1..], b, sep);
      assert s[1..] == a[1..] + [sep] + b;
      assert a == [a[0]] + a[1..];
    }
  }

  // ----- Tagged structs -----

  /** A tagged struct field; `bits` is the width of an unsigned or signed integer. */
  datatype Kind = Text | Unsigned(bits: nat) | Signed(bits: nat)

  datatype Field = Field(tag: string, omitEmpty: bool, kind: Kind)

  datatype FieldValue = Str(s: string) | Num(n: int)

  type Schema = seq<Field>

  function Zero(k: Kind): FieldValue {
    if k.Text? then Str("") else Num(0)
  }

  function Zeros(schema: Schema): seq<FieldValue> {
    seq(|schema|, i requires 0 <= i < |schema| => Zero(schema[i].kind))
  }

  function Signed10(n: int): string {
    if n < 0 then "-" + Dec(-n) else Dec(n)
  }

  function Printed(v: FieldValue): string {
    match v
    case Str(s) => s
    case Num(n) => Signed10(n)
  }

  function Pair(f: Field, v: FieldValue): seq<string> {
    if f.omitEmpty && v == Zero(f.kind) then [] else [f.tag + "=" + Printed(v)]
  }

  function Pairs(schema: Schema, vals: seq<FieldValue>): seq<string>
    requires |schema| == |vals|
  {
    if schema == [] then []
    else Pairs(schema[..|schema| - 1], vals[..|vals| - 1]) + Pair(schema[|schema| - 1], vals[|vals| - 1])
  }

  function Marshal(schema: Schema, vals: seq<FieldValue>): string
    requires |schema| == |vals|
  {
    Join(Pairs(schema, vals), ',')
  }

  method MarshalTuplenet(schema: Schema, vals: seq<FieldValue>) returns (text: string)
    requires |schema| == |vals|
    ensures text == Marshal(schema, vals)
  {
    hide Zero, Printed, Join;
    var kvs: seq<string> := [];
    for i := 0 to |schema|
      invariant kvs == Pairs(schema[..i], vals[..i])
    {
      PairsOneMore(schema, vals, i);
      if schema[i].omitEmpty && vals[i] == Zero(schema[i].kind) {
        continue;
      }
      kvs := kvs + [schema[i].tag + "=" + Printed(vals[i])];
    }
    assert schema[..|schema|] == schema && vals[..|vals|] == vals;
    text := Join(kvs, ',');
  }

  // ----- Reading on the Go side -----

  const TWO_64 := 0x1_0000_0000_0000_0000

  /** ParseUint with its error ignored: 0 when malformed, the largest value on overflow. */
  function ParseUint(s: string): nat {
    if !IsNumber(s) then 0 else if NumberValue(s) >= TWO_64 then TWO_64 - 1 else NumberValue(s)
  }

  function Clamp(n: int): int {
    if n >= TWO_64 / 2 then TWO_64 / 2 - 1 else if n < -(TWO_64 / 2) then -(TWO_64 / 2) else n
  }

  function ParseInt(s: string): int {
    if s != "" && (s[0] == '-' || s[0] == '+') then
      if IsNumber(s[1..]) then Clamp(if s[0] == '-' then 0 - NumberValue(s[1..]) else NumberValue(s[1..])) else 0
    else if IsNumber(s) then Clamp(NumberValue(s)) else 0
  }

  /** SetUint and SetInt keep the low bits of the field's width. */
  function Truncated(k: Kind, n: int): int {
    match k
    case Text => n
    case Unsigned(bits) => n % Shl(1, bits)
    case Signed(bits) => var m := n % Shl(1, bits); if 2 * m >= Shl(1, bits) then m - Shl(1, bits) else m
  }

  function Decoded(k: Kind, text: string): FieldValue {
    match k
    case Text => Str(TrimSpace(text))
    case Unsigned(_) => Num(Truncated(k, ParseUint(text)))
    case Signed(_) => Num(Truncated(k, ParseInt(text)))
  }

  /** fieldsToSet: the last field with the tag, or -1. */
  function FieldIndex(schema: Schema, tag: string): (i: int)
    ensures -1 <= i < |schema|
  {
    if schema == [] then -1
    else if schema[|schema| - 1].tag == tag then |schema| - 1
    else FieldIndex(schema[..|schema| - 1], tag)
  }

  function Assign(schema: Schema, vals: seq<FieldValue>, kv: string): (r: seq<FieldValue>)
    requires |schema| == |vals|
    ensures |r| == |vals|
  {
    match SplitOnce(kv, '=')
    case None => vals
    case Some((name, text)) =>
      var i := FieldIndex(schema, TrimSpace(name));
      if i < 0 then vals else vals[i := Decoded(schema[i].kind, text)]
  }

  function AssignAll(schema: Schema, vals: seq<FieldValue>, kvs: seq<string>): (r: seq<FieldValue>)
    requires |schema| == |vals|
    ensures |r| == |vals|
  {
    if kvs == [] then vals else Assign(schema, AssignAll(schema, vals, kvs[..|kvs| - 1]), kvs[|kvs| - 1])
  }

  function Unmarshal(schema: Schema, vals: seq<FieldValue>, text: string): seq<FieldValue>
    requires |schema| == |vals|
  {
    AssignAll(schema, vals, Split(text, ','))
  }

  /** The fields of the struct are set in place. */
  method UnmarshalTuplenet(schema: Schema, fields: array<FieldValue>, text: string)
    requires fields.Length == |schema|
    modifies fields
    ensures fields[..] == Unmarshal(schema, old(fields[..]), text)
  {
    var kvs := Split(text, ',');
    for n := 0 to |kvs|
      invariant fields[..] == AssignAll(schema, old(fields[..]), kvs[..n])
    {
      assert kvs[..n + 1][..n] == kvs[..n];
      var parts := SplitOnce(kvs[n], '=');
      if parts.None? {
        continue;
      }
      var i := FieldIndex(schema, TrimSpace(parts.value.0));
      if i >= 0 {
        fields[i] := Decoded(schema[i].kind, parts.value.1);
      }
    }
    assert kvs[..|kvs|] == kvs;
  }

  // ----- Reading on the Python side -----

  function Parsed(kvs: seq<string>): map<string, string> {
    if kvs == [] then map[]
    else
      var m := Parsed(kvs[..|kvs| - 1]);
      match SplitOnce(kvs[|kvs| - 1], '=')
      case None => m
      case Some((key, value)) => m[key := value]
  }

  method ParseValue(s: string) returns (kvSet: map<string, string>)
    ensures kvSet == Parsed(Split(s, ','))
  {
    kvSet := map[];
    var kvs := Split(s, ',');
    for i := 0 to |kvs|
      invariant kvSet == Parsed(kvs[..i])
    {
      assert kvs[..i + 1][..i] == kvs[..i];
      var kv := SplitOnce(kvs[i], '=');
      if kv.None? {
        continue;
      }
      kvSet := kvSet[kv.value.0 := kv.value.1];
    }
    assert kvs[..|kvs|] == kvs;
  }

  // ----- Round trips -----

  predicate GoodTag(tag: string) {
    ',' !in tag && '=' !in tag && NoOuterSpace(tag)
  }

  /** Tags are distinct and free of separators and outer spaces. */
  predicate GoodSchema(schema: Schema) {
    (forall i :: 0 <= i < |schema| ==> GoodTag(schema[i].tag)) &&
    (forall i, j :: 0 <= i < j < |schema| ==> schema[i].tag != schema[j].tag)
  }

  predicate Fits(k: Kind, v: FieldValue) {
    match k
    case Text => v.Str? && ',' !in v.s && NoOuterSpace(v.s)
    case Unsigned(bits) => bits <= 64 && v.Num? && 0 <= v.n < Shl(1, bits)
    case Signed(bits) =>
      0 < bits <= 64 && v.Num? && 0 - Shl(1, bits) <= 2 * v.n < Shl(1, bits)
  }

  ghost predicate AllFit(schema: Schema, vals: seq<FieldValue>) {
    |vals| == |schema| && forall i :: 0 <= i < |schema| ==> Fits(schema[i].kind, vals[i])
  }

  lemma WidthFits(bits: nat)
    requires bits <= 64
    ensures Shl(1, bits) <= TWO_64
  {
    hide Shl;
    Shl16(1);
    ShlShl(1, 16, 16);
    Shl16(0x1_0000);
    ShlShl(1, 32, 16);
    Shl16(0x1_0000_0000);
    ShlShl(1, 48, 16);
    Shl16(0x1_0000_0000_0000);
    ShlShl(1, bits, 64 - bits);
  }

  lemma {:induction false} TrimNothing(s: string)
    requires NoOuterSpace(s)
    ensures TrimSpace(s) == s
  {
  }

  lemma ParsesBack(n: int)
    requires -TWO_64 <= 2 * n
    ensures 0 <= n < TWO_64 ==> ParseUint(Signed10(n)) == n
    ensures 2 * n < TWO_64 ==> ParseInt(Signed10(n)) == n
  {
    DecReadsBack(if n < 0 then -n else n);
    hide NumberValue, IsNumber, Dec;
    if n < 0 {
      var s := "-" + Dec(-n);
      assert s[0] == '-' && s[1..] == Dec(-n);
    } else {
      NotSigned(Dec(n));
    }
  }

  lemma ModSmall(n: int, m: nat)
    requires m > 0
    ensures 0 <= n < m ==> n % m == n
    ensures 0 - m <= n < 0 ==> n % m == n + m
  {
  }

  lemma NumbersReadBack(k: Kind, v: FieldValue)
    requires !k.Text? && Fits(k, v)
    ensures Decoded(k, Printed(v)) == v
  {
    WidthFits(k.bits);
    hide Shl, ParseUint, ParseInt, Signed10;
    ParsesBack(v.n);
    ModSmall(v.n, Shl(1, k.bits));
  }

  lemma NotSigned(s: string)
    requires IsNumber(s)
    ensures s != "" && s[0] != '-' && s[0] != '+'
  {
    assert IsDigit(s[0]);
  }

  lemma PairReadsBack(schema: Schema, vals: seq<FieldValue>, i: nat, v: FieldValue)
    requires GoodSchema(schema) && i < |schema| && |vals| == |schema| && Fits(schema[i].kind, v)
    ensures Assign(schema, vals, schema[i].tag + "=" + Printed(v)) == vals[i := v]
    ensures ',' !in schema[i].tag + "=" + Printed(v)
  {
    var tag, text := schema[i].tag, Printed(v);
    SplitOnceAt(tag, text, '=');
    TrimNothing(tag);
    FieldIndexIs(schema, i);
    if schema[i].kind.Text? {
      TrimNothing(v.s);
    } else {
      NumbersReadBack(schema[i].kind, v);
      NoCommaInNumber(v.n);
    }
    hide TrimSpace, SplitOnce, FieldIndex, Shl, Signed10, ParseUint, ParseInt, Truncated;
  }

  lemma NoCommaInNumber(n: int)
    ensures ',' !in Signed10(n)
  {
    var digits := Dec(if n < 0 then -n else n);
    assert forall i :: 0 <= i < |digits| ==> IsDigit(digits[i]);
    hide Dec;
  }

  lemma {:induction false} FieldIndexIs(schema: Schema, i: nat)
    requires i < |schema| && forall j, k :: 0 <= j < k < |schema| ==> schema[j].tag != schema[k].tag
    ensures FieldIndex(schema, schema[i].tag) == i
  {
    if i < |schema| - 1 {
      FieldIndexIs(schema[..|schema| - 1], i);
    }
  }

  lemma AssignOneMore(schema: Schema, vals: seq<FieldValue>, kvs: seq<string>, kv: string)
    requires |schema| == |vals|
    ensures AssignAll(schema, vals, kvs + [kv]) == Assign(schema, AssignAll(schema, vals, kvs), kv)
  {
    assert (kvs + [kv])[..|kvs|] == kvs;
  }

  lemma PairsOneMore(schema: Schema, vals: seq<FieldValue>, n: nat)
    requires |vals| == |schema| && n < |schema|
    ensures Pairs(schema[..n + 1], vals[..n + 1]) == Pairs(schema[..n], vals[..n]) + Pair(schema[n], vals[n])
  {
    assert schema[..n + 1][..n] == schema[..n] && vals[..n + 1][..n] == vals[..n];
  }

  predicate CommaFree(kvs: seq<string>) {
    forall p :: p in kvs ==> ',' !in p
  }

  lemma CommaFreeAppend(a: seq<string>, b: seq<string>)
    requires CommaFree(a) && CommaFree(b)
    ensures CommaFree(a + b)
  {
  }

  lemma PairHoldsNoComma(schema: Schema, vals: seq<FieldValue>, i: nat)
    requires GoodSchema(schema) && AllFit(schema, vals) && i < |schema|
    ensures CommaFree(Pair(schema[i], vals[i]))
  {
    hide Assign, Printed, GoodSchema;
    PairReadsBack(schema, vals, i, vals[i]);
  }

  lemma {:induction false} PairsHoldNoComma(schema: Schema, vals: seq<FieldValue>, n: nat)
    requires GoodSchema(schema) && AllFit(schema, vals) && n <= |schema|
    ensures CommaFree(Pairs(schema[..n], vals[..n]))
  {
    if n > 0 {
      hide Pairs, Pair, GoodSchema, CommaFree;
      PairsHoldNoComma(schema, vals, n - 1);
      PairsOneMore(schema, vals, n - 1);
      PairHoldsNoComma(schema, vals, n - 1);
      CommaFreeAppend(Pairs(schema[..n - 1], vals[..n - 1]), Pair(schema[n - 1], vals[n - 1]));
    }
  }

  /** The first n fields set, the others zero. */
  function SetUpTo(schema: Schema, vals: seq<FieldValue>, n: nat): seq<FieldValue>
    requires |vals| == |schema|
  {
    seq(|schema|, i requires 0 <= i < |schema| => if i < n then vals[i] else Zero(schema[i].kind))
  }

  lemma SetOneMore(schema: Schema, vals: seq<FieldValue>, n: nat)
    requires |vals| == |schema| && n < |schema|
    ensures SetUpTo(schema, vals, n)[n := vals[n]] == SetUpTo(schema, vals, n + 1)
    ensures vals[n] == Zero(schema[n].kind) ==> SetUpTo(schema, vals, n) == SetUpTo(schema, vals, n + 1)
  {
  }

  lemma {:induction false} PairsReadBack(schema: Schema, vals: seq<FieldValue>, n: nat)
    requires GoodSchema(schema) && AllFit(schema, vals) && n <= |schema|
    ensures AssignAll(schema, Zeros(schema), Pairs(schema[..n], vals[..n])) == SetUpTo(schema, vals, n)
  {
    if n > 0 {
      hide Fits, Printed, GoodSchema, Assign, AssignAll, Pairs, SetUpTo;
      PairsReadBack(schema, vals, n - 1);
      PairsOneMore(schema, vals, n - 1);
      SetOneMore(schema, vals, n - 1);
      var before := Pairs(schema[..n - 1], vals[..n - 1]);
      if Pair(schema[n - 1], vals[n - 1]) == [] {
        assert before + [] == before;
      } else {
        PairReadsBack(schema, SetUpTo(schema, vals, n - 1), n - 1, vals[n - 1]);
        AssignOneMore(schema, Zeros(schema), before, schema[n - 1].tag + "=" + Printed(vals[n - 1]));
      }
    } else {
      assert SetUpTo(schema, vals, 0) == Zeros(schema);
    }
  }

  lemma AssignsNothing(schema: Schema, vals: seq<FieldValue>)
    requires |schema| == |vals|
    ensures AssignAll(schema, vals, [""]) == vals
  {
    assert [""][..0] == [];
  }

  /** Every tagged field comes back, omitted empties included. */
  lemma RecordRoundTrip(schema: Schema, vals: seq<FieldValue>)
    requires GoodSchema(schema) && AllFit(schema, vals)
    ensures Unmarshal(schema, Zeros(schema), Marshal(schema, vals)) == vals
  {
    var n := |schema|;
    assert schema[..n] == schema && vals[..n] == vals && |vals| == n;
    assert SetUpTo(schema, vals, n) == vals;
    hide GoodSchema, AllFit, Pairs, Split, Join, AssignAll, SetUpTo, Zeros;
    PairsReadBack(schema, vals, n);
    PairsHoldNoComma(schema, vals, n);
    if Pairs(schema, vals) == [] {
      SplitOne("", ',');
      assert Join([], ',') == "" by { JoinNone(); }
      AssignsNothing(schema, Zeros(schema));
    } else {
      SplitJoin(Pairs(schema, vals), ',');
    }
  }

  lemma JoinNone()
    ensures Join([], ',') == ""
  {
  }

  /** The tag to text map of the fields that are written. */
  function Written(schema: Schema, vals: seq<FieldValue>): map<string, string>
    requires |schema| == |vals|
  {
    if schema == [] then map[]
    else
      var n := |schema| - 1;
      var m := Written(schema[..n], vals[..n]);
      if schema[n].omitEmpty && vals[n] == Zero(schema[n].kind) then m else m[schema[n].tag := Printed(vals[n])]
  }

  lemma ParsedMore(kvs: seq<string>, tag: string, text: string)
    requires '=' !in tag
    ensures Parsed(kvs + [tag + "=" + text]) == Parsed(kvs)[tag := text]
  {
    SplitOnceAt(tag, text, '=');
    assert (kvs + [tag + "=" + text])[..|kvs|] == kvs;
    hide SplitOnce;
  }

  lemma {:induction false} PairsParse(schema: Schema, vals: seq<FieldValue>)
    requires |schema| == |vals| && forall i :: 0 <= i < |schema| ==> '=' !in schema[i].tag
    ensures Parsed(Pairs(schema, vals)) == Written(schema, vals)
  {
    if schema != [] {
      var n := |schema| - 1;
      var before := Pairs(schema[..n], vals[..n]);
      assert Pairs(schema, vals) == before + Pair(schema[n], vals[n]);
      assert before + [] == before;
      hide Parsed, Pairs, Printed;
      PairsParse(schema[..n], vals[..n]);
      ParsedMore(before, schema[n].tag, Printed(vals[n]));
    }
  }

  /** The Python side reads the same text into the same tag to text map. */
  lemma PythonReadsTheSame(schema: Schema, vals: seq<FieldValue>)
    requires GoodSchema(schema) && AllFit(schema, vals)
    ensures Parsed(Split(Marshal(schema, vals), ',')) == Written(schema, vals)
  {
    var n := |schema|;
    PairsHoldNoComma(schema, vals, n);
    PairsParse(schema, vals);
    assert schema[..n] == schema && vals[..n] == vals;
    hide GoodSchema, AllFit, Pairs, Split;
    if Pairs(schema, vals) == [] {
      SplitOne("", ',');
      assert [""][..0] == [];
    } else {
      SplitJoin(Pairs(schema, vals), ',');
    }
  }

  // ----- Texts that no Go client wrote -----

  lemma {:induction false} NoSeparator(s: string, sep: char)
    ensures SplitOnce(s, sep).None? <==> sep !in s
  {
    if s != "" {
      NoSeparator(s[1..], sep);
      assert forall c :: c in s <==> c == s[0] || c in s[1..];
    }
  }

  predicate Names(kvs: seq<string>, i: nat, tag: string) {
    i < |kvs| && SplitOnce(kvs[i], '=').Some? && SplitOnce(kvs[i], '=').value.0 == tag
  }

  predicate NamesLast(kvs: seq<string>, i: nat, tag: string) {
    Names(kvs, i, tag) && forall j :: i < j < |kvs| ==> !Names(kvs, j, tag)
  }

  /** On the Python side the last pair with a tag decides; other pairs are skipped. */
  lemma {:induction false} LastPairDecides(kvs: seq<string>, i: nat, tag: string)
    requires NamesLast(kvs, i, tag)
    ensures tag in Parsed(kvs) && Parsed(kvs)[tag] == SplitOnce(kvs[i], '=').value.1
  {
    hide SplitOnce;
    var n := |kvs| - 1;
    if i < n {
      assert !Names(kvs, n, tag);
      forall j | i < j < n ensures !Names(kvs[..n], j, tag) {
        assert !Names(kvs, j, tag);
      }
      LastPairDecides(kvs[..n], i, tag);
    }
  }

  lemma {:induction false} UnnamedIsMissing(kvs: seq<string>, tag: string)
    requires forall i: nat :: !Names(kvs, i, tag)
    ensures tag !in Parsed(kvs)
  {
    hide SplitOnce;
    if kvs != [] {
      var n := |kvs| - 1;
      assert !Names(kvs, n, tag);
      forall i: nat ensures !Names(kvs[..n], i, tag) {
        assert !Names(kvs, i, tag);
      }
      UnnamedIsMissing(kvs[..n], tag);
    }
  }

  /** On the Go side the last field with a tag is set. */
  lemma {:induction false} LastFieldIsSet(schema: Schema, tag: string)
    ensures var i := FieldIndex(schema, tag);
      if i < 0 then forall j :: 0 <= j < |schema| ==> schema[j].tag != tag
      else schema[i].tag == tag && forall j :: i < j < |schema| ==> schema[j].tag != tag
  {
    if schema != [] {
      LastFieldIsSet(schema[..|schema| - 1], tag);
    }
  }

  /** Too large a number becomes the largest of 64 bits and is cut to the width of the field;
      a malformed one becomes 0. */
  lemma UnsignedReads(bits: nat, n: nat, text: string)
    ensures Decoded(Unsigned(bits), Dec(n)) ==
      Num((if n > 0xffff_ffff_ffff_ffff then 0xffff_ffff_ffff_ffff else n) % Shl(1, bits))
    ensures !IsNumber(text) ==> Decoded(Unsigned(bits), text) == Num(0)
  {
    DecReadsBack(n);
    hide Shl;
    assert 0 % Shl(1, bits) == 0;
  }

  /** Signed numbers are clamped to 64 bits; a plus sign changes nothing. */
  lemma SignedReads(bits: nat, n: int, m: nat)
    ensures Decoded(Signed(bits), Signed10(n)) == Num(Truncated(Signed(bits),
              if n > 0x7fff_ffff_ffff_ffff then 0x7fff_ffff_ffff_ffff
              else if n < -0x8000_0000_0000_0000 then -0x8000_0000_0000_0000 else n))
    ensures Decoded(Signed(bits), "+" + Dec(m)) == Decoded(Signed(bits), Dec(m))
  {
    DecReadsBack(if n < 0 then -n else n);
    DecReadsBack(m);
    var a, b := "-" + Dec(if n < 0 then -n else n), "+" + Dec(m);
    assert a[0] == '-' && a[1..] == Dec(if n < 0 then -n else n) && b[0] == '+' && b[1..] == Dec(m);
    hide Dec, Truncated, IsNumber, NumberValue;
    assert IsDigit(Dec(m)[0]) && (n >= 0 ==> IsDigit(Dec(n)[0]));
  }

  /** Cutting keeps the number modulo the width and ends in the range of the field. */
  lemma TruncatedIs(bits: nat, n: int) returns (q: int, k: int)
    ensures var m := Truncated(Unsigned(bits), n); 0 <= m < Shl(1, bits) && n == m + q * Shl(1, bits)
    ensures var m := Truncated(Signed(bits), n);
      0 - Shl(1, bits) <= 2 * m < Shl(1, bits) && n == m + k * Shl(1, bits)
  {
    var w := Shl(1, bits);
    hide Shl;
    q := n / w;
    k := if 2 * (n % w) >= w then q + 1 else q;
  }

  /** Exactly the spaces around a text are cut. */
  lemma TrimsAround(a: string, s: string, b: string)
    requires (forall c :: c in a + b ==> IsSpace(c)) && NoOuterSpace(s)
    ensures TrimSpace(a + s + b) == s
  {
    hide IsSpace;
    if s == "" {
      assert forall c :: c in a + s + b ==> c in a + b;
      AllTrimmed(a + s + b);
    } else {
      assert a + s + b == a + (s + b);
      assert forall c :: c in a ==> c in a + b;
      assert forall c :: c in b ==> c in a + b;
      LeftTrimmed(a, s + b);
      RightTrimmed(s, b);
    }
  }

  lemma {:induction false} AllTrimmed(s: string)
    requires forall c :: c in s ==> IsSpace(c)
    ensures TrimLeft(s) == ""
  {
    if s != "" { AllTrimmed(s[1..]); }
  }

  lemma {:induction false} LeftTrimmed(a: string, s: string)
    requires (forall c :: c in a ==> IsSpace(c)) && s != "" && !IsSpace(s[0])
    ensures TrimLeft(a + s) == s
  {
    if a == "" {
      assert a + s == s;
    } else {
      LeftTrimmed(a[1..], s);
      assert (a + s)[1..] == a[1..] + s;
    }
  }

  lemma {:induction false} RightTrimmed(s: string, b: string)
    requires (forall c :: c in b ==> IsSpace(c)) && s != "" && !IsSpace(s[|s| - 1])
    ensures TrimRight(s + b) == s
    decreases |b|
  {
    if b == "" {
      assert s + b == s;
    } else {
      RightTrimmed(s, b[..|b| - 1]);
      assert (s + b)[..|s + b| - 1] == s + b[..|b| - 1];
    }
  }

  /** The characters of the property White_Space. */
  lemma SpacesAre(c: char)
    ensures IsSpace(c) <==>
      c in {' ', '\t', '\n', '\U{000B}', '\U{000C}', '\r'} ||
      c in {'\U{0085}', '\U{00A0}', '\U{1680}', '\U{2028}', '\U{2029}', '\U{202F}', '\U{205F}', '\U{3000}'} ||
      '\U{2000}' <= c <= '\U{200A}'
  {
  }

  // ----- The structs of the logical devices -----

  const SWITCH: Schema := [Field("id", false, Unsigned(32))]
  const SWITCH_PORT: Schema := [
    Field("ip", false, Text), Field("mac", false, Text), Field("peer", true, Text), Field("chassis", true, Text)]
  const ROUTER: Schema := [Field("id", false, Unsigned(32)), Field("chassis", true, Text)]
  const ROUTER_PORT: Schema := [
    Field("ip", false, Text), Field("prefix", false, Unsigned(8)), Field("mac", false, Text),
    Field("peer", false, Text)]
  const STATIC_ROUTE: Schema := [
    Field("ip", false, Text), Field("prefix", false, Unsigned(8)), Field("next_hop", false, Text),
    Field("outport", false, Text)]
  const NAT: Schema := [
    Field("ip", false, Text), Field("prefix", false, Unsigned(8)), Field("xlate_type", false, Text),
    Field("xlate_ip", false, Text)]
  const CHASSIS: Schema := [Field("ip", false, Text), Field("tick", false, Unsigned(64))]

  lemma TagsAreGood()
    ensures GoodTag("id") && GoodTag("ip") && GoodTag("mac") && GoodTag("peer") && GoodTag("chassis")
  {
  }

  lemma LongTagsAreGood()
    ensures GoodTag("next_hop") && GoodTag("xlate_type") && GoodTag("xlate_ip")
  {
  }

  lemma MoreTagsAreGood()
    ensures GoodTag("prefix") && GoodTag("outport") && GoodTag("tick")
  {
  }

  /** No two tags of a struct are of the same length, so they differ. */
  lemma SchemasAreGood()
    ensures GoodSchema(SWITCH) && GoodSchema(SWITCH_PORT) && GoodSchema(ROUTER) && GoodSchema(ROUTER_PORT)
    ensures GoodSchema(STATIC_ROUTE) && GoodSchema(NAT) && GoodSchema(CHASSIS)
  {
    TagsAreGood();
    MoreTagsAreGood();
    LongTagsAreGood();
    hide GoodTag;
    forall schema: Schema | schema in {SWITCH, SWITCH_PORT, ROUTER, ROUTER_PORT, STATIC_ROUTE, NAT, CHASSIS}
      ensures GoodSchema(schema)
    {
      forall i, j | 0 <= i < j < |schema| ensures schema[i].tag != schema[j].tag {
        assert |schema[i].tag| != |schema[j].tag|;
      }
    }
  }
}
