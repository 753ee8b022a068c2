// Decimal numbers, dotted quads, and the split and join functions that both the
// Go and the Python side use on record text.

module TextCodec {
  import opened Common

  function DigitChar(d: nat): char
    requires d < 10
  {
    (d + '0' as int) as char
  }

  predicate IsDigit(c: char) {
    '0' <= c <= '9'
  }

  function Dec(n: nat): (s: string)
    ensures |s| > 0 && forall i :: 0 <= i < |s| ==> IsDigit(s[i])
  {
    if n < 10 then [DigitChar(n)] else Dec(n / 10) + [DigitChar(n % 10)]
  }

  /** U32ToIPv4, and inet_ntoa on the Python side. */
  function DottedQuad(ip: nat): string {
    Dec(ip / 0x100_0000 % 256) + "." + Dec(ip / 0x1_0000 % 256) + "." +
    Dec(ip / 256 % 256) + "." + Dec(ip % 256)
  }

  // ----- Split and join -----

  /** strings.Split and str.split on a one-character separator. */
  function Split(s: string, sep: char): (parts: seq<string>)
    ensures parts != []
  {
    if s == "" then [""]
    else
      var rest := Split(s[1..], sep);
      if s[0] == sep then [""] + rest else [[s[0]] + rest[0]] + rest[1..]
  }

  function Join(parts: seq<string>, sep: char): string {
    if parts == [] then ""
    else if |parts| == 1 then parts[0]
    else parts[0] + [sep] + Join(parts[1..], sep)
  }

  lemma {:induction false} SplitOne(p: string, sep: char)
    requires sep !in p
    ensures Split(p, sep) == [p]
  {
    if p != "" {
      SplitOne(p[1..], sep);
      assert p == [p[0]] + p[1..];
    }
  }

  lemma {:induction false} SplitFirst(p: string, rest: string, sep: char)
    requires sep !in p
    ensures Split(p + [sep] + rest, sep) == [p] + Split(rest, sep)
  {
    var s := p + [sep] + rest;
    if p == "" {
      assert s[1..] == rest;
    } else {
      SplitFirst(p[1..], rest, sep);
      assert s[1..] == p[1..] + [sep] + rest;
      assert p == [p[0]] + p[1..];
    }
  }

  lemma SplitStep(c: char, s: string, sep: char)
    ensures Split([c] + s, sep) ==
      if c == sep then [""] + Split(s, sep) else [[c] + Split(s, sep)[0]] + Split(s, sep)[1..]
  {
    assert ([c] + s)[1..] == s;
  }

  lemma PrependAssoc<T>(x: T, a: seq<T>, b: seq<T>)
    ensures [x] + (a + b) == ([x] + a) + b
  {
  }

  lemma {:induction false} SplitAppend(a: string, b: string, sep: char)
    ensures Split(a + [sep] + b, sep) == Split(a, sep) + Split(b, sep)
  {
    hide Split;
    if a == "" {
      assert [sep] + b == a + [sep] + b;
      SplitStep(sep, b, sep);
      SplitOne(a, sep);
    } else {
      var rest := a[1..] + [sep] + b;
      assert [a[0]] + rest == a + [sep] + b && [a[0]] + a[1..] == a;
      SplitAppend(a[1..], b, sep);
      SplitStep(a[0], rest, sep);
      SplitStep(a[0], a[1..], sep);
      HeadAppend(a[0], Split(a[1..], sep), Split(b, sep));
      PrependAssoc("", Split(a[1..], sep), Split(b, sep));
    }
  }

  lemma HeadAppend(c: char, r: seq<string>, t: seq<string>)
    requires r != []
    ensures [[c] + (r + t)[0]] + (r + t)[1..] == ([[c] + r[0]] + r[1..]) + t
  {
    assert (r + t)[1..] == r[1..] + t;
  }

  /** Splitting undoes joining when no part holds the separator. */
  lemma {:induction false} SplitJoin(parts: seq<string>, sep: char)
    requires parts != [] && forall p :: p in parts ==> sep !in p
    ensures Split(Join(parts, sep), sep) == parts
  {
    if |parts| == 1 {
      SplitOne(parts[0], sep);
    } else {
      SplitFirst(parts[0], Join(parts[1..], sep), sep);
      SplitJoin(parts[1..], sep);
    }
  }

  // ----- Reading numbers back -----

  function DigitValue(c: char): nat
    requires IsDigit(c)
  {
    c as int - '0' as int
  }

  predicate IsNumber(s: string) {
    s != "" && forall i :: 0 <= i < |s| ==> IsDigit(s[i])
  }

  function NumberValue(s: string): nat
    requires IsNumber(s)
  {
    if |s| == 1 then DigitValue(s[0]) else NumberValue(s[..|s| - 1]) * 10 + DigitValue(s[|s| - 1])
  }

  lemma {:induction false} DecReadsBack(n: nat)
    ensures IsNumber(Dec(n)) && NumberValue(Dec(n)) == n
  {
    if n >= 10 {
      DecReadsBack(n / 10);
      assert Dec(n)[..|Dec(n)| - 1] == Dec(n / 10);
    }
  }

  /** strconv.ParseUint(s, 10, 8) with its error ignored: 0 for a malformed
      number, 255 for one that does not fit. */
  function ParseOctet(s: string): nat {
    if !IsNumber(s) then 0 else if NumberValue(s) > 255 then 255 else NumberValue(s)
  }

  /** IPv4ToU32; fewer than four parts make the source panic. */
  function ParseQuad(text: string): Option<nat> {
    var p := Split(text, '.');
    if |p| < 4 then None
    else Some(ParseOctet(p[0]) * 0x100_0000 + ParseOctet(p[1]) * 0x1_0000 + ParseOctet(p[2]) * 256 + ParseOctet(p[3]))
  }

  lemma OctetReadsBack(b: nat)
    requires b < 256
    ensures ParseOctet(Dec(b)) == b && '.' !in Dec(b)
  {
    DecReadsBack(b);
  }

  lemma JoinFour(a: string, b: string, c: string, d: string)
    ensures Join([a, b, c, d], '.') == a + "." + b + "." + c + "." + d
  {
    assert Join([c, d], '.') == c + ['.'] + Join([d], '.');
    assert [b, c, d][1..] == [c, d] && [a, b, c, d][1..] == [b, c, d];
  }

  lemma FourOctets(ip: nat)
    requires ip < 0x1_0000_0000
    ensures ip == ip / 0x100_0000 % 256 * 0x100_0000 + ip / 0x1_0000 % 256 * 0x1_0000 + ip / 256 % 256 * 256 + ip % 256
  {
    var x, y, z := ip / 256, ip / 0x1_0000, ip / 0x100_0000;
    assert y == x / 256 && z == y / 256;
  }

  /** Parsing a formatted address gives the address back. */
  lemma QuadReadsBack(ip: nat)
    requires ip < 0x1_0000_0000
    ensures ParseQuad(DottedQuad(ip)) == Some(ip)
  {
    var a, b, c, d := ip / 0x100_0000 % 256, ip / 0x1_0000 % 256, ip / 256 % 256, ip % 256;
    OctetReadsBack(a);
    OctetReadsBack(b);
    OctetReadsBack(c);
    OctetReadsBack(d);
    FourOctets(ip);
    hide Dec, ParseOctet, Split, Join;
    JoinFour(Dec(a), Dec(b), Dec(c), Dec(d));
    SplitJoin([Dec(a), Dec(b), Dec(c), Dec(d)], '.');
  }

  /** ParseUint(s, 10, 8): too large is 255, malformed is 0. */
  lemma OctetReads(n: nat, s: string)
    ensures ParseOctet(Dec(n)) == if n > 255 then 255 else n
    ensures !IsNumber(s) ==> ParseOctet(s) == 0
  {
    DecReadsBack(n);
  }

  /** Whatever follows a fourth dot is ignored; fewer than four parts are none. */
  lemma QuadReadsFour(a: string, b: string, c: string, d: string, rest: string)
    requires '.' !in a && '.' !in b && '.' !in c && '.' !in d
    ensures ParseQuad(a + "." + b + "." + c + "." + d + "." + rest) == ParseQuad(a + "." + b + "." + c + "." + d)
    ensures ParseQuad(a + "." + b + "." + c) == None
  {
    hide Split, Join, ParseOctet;
    JoinFour(a, b, c, d);
    SplitJoin([a, b, c, d], '.');
    SplitAppend(a + "." + b + "." + c + "." + d, rest, '.');
    SplitOne(a, '.');
    SplitOne(b, '.');
    SplitOne(c, '.');
    SplitAppend(a, b, '.');
    SplitAppend(a + "." + b, c, '.');
  }
}
