/**
  `CommsLogService.generateId`: eight four-digit hexadecimal groups laid out
  8-4-4-4-12 with hyphens. Each group comes from `S4`, which renders
  0x10000 + n in base 16 and drops the leading `1`; this model takes the
  eight values n (each below 0x10000) as inputs instead of drawing them at
  random.
*/
module Ids {

  predicate IsLowerHexDigit(c: char) {
    '0' <= c <= '9' || 'a' <= c <= 'f'
  }

  predicate IsLowerHex(s: string) {
    forall i :: 0 <= i < |s| ==> IsLowerHexDigit(s[i])
  }

  /** The digit `Number.prototype.toString(16)` writes for d. */
  function HexDigit(d: nat): (c: char)
    requires d < 16
    ensures IsLowerHexDigit(c)
  {
    if d < 10 then ('0' as int + d) as char else ('a' as int + d - 10) as char
  }

  function DigitValue(c: char): (d: nat)
    requires IsLowerHexDigit(c)
    ensures d < 16 && HexDigit(d) == c
  {
    if c <= '9' then c as int - '0' as int else c as int - 'a' as int + 10
  }

  /** `m.toString(16)`: lowercase base-16 digits, most significant first, no leading zeros. */
  function ToHexString(m: nat): (s: string)
    ensures |s| >= 1 && IsLowerHex(s)
    ensures m >= 16 ==> s[0] != '0'
    decreases m
  {
    if m < 16 then [HexDigit(m)] else ToHexString(m / 16) + [HexDigit(m % 16)]
  }

  /** The number a string of lowercase hex digits denotes. */
  function HexValue(s: string): nat
    requires IsLowerHex(s)
  {
    if s == [] then 0 else 16 * HexValue(s[..|s| - 1]) + DigitValue(s[|s| - 1])
  }

  /** Reading back what `toString(16)` wrote gives the number again. */
  lemma {:induction false} ToHexStringRoundTrip(m: nat)
    ensures HexValue(ToHexString(m)) == m
    decreases m
  {
    var s := ToHexString(m);
    if m >= 16 {
      ToHexStringRoundTrip(m / 16);
      assert s[..|s| - 1] == ToHexString(m / 16);
    }
  }

  /** The four digits of n below 0x10000, most significant first. */
  function Digits4(n: nat): string
    requires n < 0x10000
  {
    [HexDigit(n / 16 / 16 / 16), HexDigit(n / 16 / 16 % 16), HexDigit(n / 16 % 16), HexDigit(n % 16)]
  }

  /** 0x10000 + n has five hex digits: a leading `1` and then the four digits of n. */
  lemma HexOfOffset(n: nat)
    requires n < 0x10000
    ensures ToHexString(0x10000 + n) == ['1'] + Digits4(n)
  {
    var m0 := 0x10000 + n;
    var m1, m2, m3 := 0x1000 + n / 16, 0x100 + n / 16 / 16, 16 + n / 16 / 16 / 16;
    assert m0 / 16 == m1 && m0 % 16 == n % 16;
    assert m1 / 16 == m2 && m1 % 16 == n / 16 % 16;
    assert m2 / 16 == m3 && m2 % 16 == n / 16 / 16 % 16;
    assert m3 / 16 == 1 && m3 % 16 == n / 16 / 16 / 16;
    calc {
      ToHexString(m0);
      ToHexString(m1) + [HexDigit(n % 16)];
      ToHexString(m2) + [HexDigit(n / 16 % 16)] + [HexDigit(n % 16)];
      ToHexString(m3) + [HexDigit(n / 16 / 16 % 16)] + [HexDigit(n / 16 % 16)] + [HexDigit(n % 16)];
      ['1'] + [HexDigit(n / 16 / 16 / 16)] + [HexDigit(n / 16 / 16 % 16)] + [HexDigit(n / 16 % 16)] + [HexDigit(n % 16)];
    }
  }

  lemma DigitRoundTrip(d: nat)
    requires d < 16
    ensures DigitValue(HexDigit(d)) == d
  {
  }

  /** Integer division by 16 is determined by quotient and remainder. */
  lemma Div16(n: int, q: int, r: int)
    requires n == q * 16 + r && 0 <= r < 16
    ensures n / 16 == q && n % 16 == r
  {
  }

  /** The value of four hex digits, written out positionally. */
  lemma HexValue4(s: string)
    requires |s| == 4 && IsLowerHex(s)
    ensures HexValue(s) == DigitValue(s[0]) * 0x1000 + DigitValue(s[1]) * 0x100 + DigitValue(s[2]) * 16 + DigitValue(s[3])
  {
    var s3, s2, s1 := s[..3], s[..2], s[..1];
    assert s3[..2] == s2 && s3[2] == s[2];
    assert s2[..1] == s1 && s2[1] == s[1];
    assert s1[..0] == [] && s1[0] == s[0];
    assert HexValue(s1) == DigitValue(s[0]);
    assert HexValue(s2) == 16 * DigitValue(s[0]) + DigitValue(s[1]);
    assert HexValue(s3) == 16 * HexValue(s2) + DigitValue(s[2]);
  }

  /** The four digits of n spell n. */
  lemma Digits4Value(n: nat)
    requires n < 0x10000
    ensures IsLowerHex(Digits4(n)) && HexValue(Digits4(n)) == n
  {
    var a, b := n / 16, n / 16 / 16;
    var c := b / 16;
    assert n == 16 * a + n % 16;
    assert a == 16 * b + a % 16;
    assert b == 16 * c + b % 16;
    assert n == c * 0x1000 + b % 16 * 0x100 + a % 16 * 16 + n % 16;
    HexValue4(Digits4(n));
    DigitRoundTrip(c);
    DigitRoundTrip(b % 16);
    DigitRoundTrip(a % 16);
    DigitRoundTrip(n % 16);
  }

  /**
    `S4()` for the integer n it draws: `(0x10000 + n).toString(16).substring(1)`,
    the zero-padded four-digit lowercase hex of n.
  */
  function S4(n: nat): (s: string)
    requires n < 0x10000
    ensures |s| == 4 && IsLowerHex(s)
    ensures HexValue(s) == n
  {
    HexOfOffset(n);
    Digits4Value(n);
    ToHexString(0x10000 + n)[1..]
  }

  /** Every four-digit lowercase hex string is the output of `S4` for exactly its value. */
  lemma S4Onto(g: string)
    requires |g| == 4 && IsLowerHex(g)
    ensures HexValue(g) < 0x10000 && S4(HexValue(g)) == g
  {
    HexValue4(g);
    var n := HexValue(g);
    var d0, d1, d2, d3 := DigitValue(g[0]), DigitValue(g[1]), DigitValue(g[2]), DigitValue(g[3]);
    Div16(n, d0 * 0x100 + d1 * 16 + d2, d3);
    Div16(n / 16, d0 * 16 + d1, d2);
    Div16(n / 16 / 16, d0, d1);
    HexOfOffset(n);
    assert Digits4(n) == g;
  }

  /** An inputs list for `generateId`: eight values, each below 0x10000. */
  predicate IsQuads(q: seq<nat>) {
    |q| == 8 && forall i :: 0 <= i < 8 ==> q[i] < 0x10000
  }

  /** The positions of the four hyphens. */
  predicate IsHyphenPos(i: int) {
    i == 8 || i == 13 || i == 18 || i == 23
  }

  /** An id of the 8-4-4-4-12 shape: 36 characters, hyphens at 8, 13, 18, 23, lowercase hex elsewhere. */
  predicate IsIdShape(s: string) {
    |s| == 36 &&
    forall i :: 0 <= i < 36 ==> if IsHyphenPos(i) then s[i] == '-' else IsLowerHexDigit(s[i])
  }

  /** Where the k-th four-digit group starts in an id. */
  function GroupStart(k: nat): nat
    requires k < 8
  {
    [0, 4, 9, 14, 19, 24, 28, 32][k]
  }

  /** `generateId()` for the eight values its `S4()` calls draw, in call order. */
  function GenerateId(q: seq<nat>): (id: string)
    requires IsQuads(q)
    ensures |id| == 36
  {
    S4(q[0]) + S4(q[1]) + "-" + S4(q[2]) + "-" + S4(q[3]) + "-" + S4(q[4]) + "-" + S4(q[5]) + S4(q[6]) + S4(q[7])
  }

  /** The k-th four-character group of a generated id is `S4` of the k-th value. */
  lemma GenerateIdGroups(q: seq<nat>)
    requires IsQuads(q)
    ensures |GenerateId(q)| == 36
    ensures forall k :: 0 <= k < 8 ==> GenerateId(q)[GroupStart(k)..GroupStart(k) + 4] == S4(q[k])
  {
    var a := S4(q[0]) + S4(q[1]);
    var b := a + "-" + S4(q[2]);
    var c := b + "-" + S4(q[3]);
    var d := c + "-" + S4(q[4]);
    var e := d + "-" + S4(q[5]);
    var f := e + S4(q[6]);
    var id := f + S4(q[7]);
    assert id == GenerateId(q);
    assert a[0..4] == S4(q[0]) && a[4..8] == S4(q[1]);
    assert b[..8] == a && b[9..13] == S4(q[2]);
    assert c[..13] == b && c[14..18] == S4(q[3]);
    assert d[..18] == c && d[19..23] == S4(q[4]);
    assert e[..23] == d && e[24..28] == S4(q[5]);
    assert f[..28] == e && f[28..32] == S4(q[6]);
    assert id[..32] == f && id[32..36] == S4(q[7]);
    PrefixOfPrefix(id, f, e);
    PrefixOfPrefix(id, e, d);
    PrefixOfPrefix(id, d, c);
    PrefixOfPrefix(id, c, b);
    PrefixOfPrefix(id, b, a);
    forall k | 0 <= k < 8
      ensures id[GroupStart(k)..GroupStart(k) + 4] == S4(q[k])
    {
      var st := GroupStart(k);
      var pre := if k < 2 then a else if k == 2 then b else if k == 3 then c
                 else if k == 4 then d else if k == 5 then e else if k == 6 then f else id;
      assert id[st..st + 4] == id[..|pre|][st..st + 4];
    }
  }

  /** A generated id has the 8-4-4-4-12 shape: 36 characters, hyphens at 8, 13, 18, 23, lowercase hex elsewhere. */
  lemma GenerateIdShape(q: seq<nat>)
    requires IsQuads(q)
    ensures IsIdShape(GenerateId(q))
  {
    var id := GenerateId(q);
    GenerateIdGroups(q);
    var p8 := S4(q[0]) + S4(q[1]);
    var p13 := p8 + "-" + S4(q[2]);
    var p18 := p13 + "-" + S4(q[3]);
    var p23 := p18 + "-" + S4(q[4]);
    assert p8 + "-" == id[..9];
    assert p13 + "-" == id[..14];
    assert p18 + "-" == id[..19];
    assert p23 + "-" == id[..24];
    forall i | 0 <= i < 36
      ensures if IsHyphenPos(i) then id[i] == '-' else IsLowerHexDigit(id[i])
    {
      if IsHyphenPos(i) {
        assert id[i] == id[..i + 1][i];
      } else {
        var k := GroupOf(i);
        assert id[i] == id[GroupStart(k)..GroupStart(k) + 4][i - GroupStart(k)];
      }
    }
  }

  /** The group a non-hyphen position of an id belongs to. */
  function GroupOf(i: nat): (k: nat)
    requires i < 36 && !IsHyphenPos(i)
    ensures k < 8 && GroupStart(k) <= i < GroupStart(k) + 4
  {
    if i < 4 then 0 else if i < 8 then 1 else if i < 13 then 2 else if i < 18 then 3
    else if i < 23 then 4 else if i < 28 then 5 else if i < 32 then 6 else 7
  }

  /** Being a prefix is transitive. */
  lemma PrefixOfPrefix(s: string, t: string, u: string)
    requires |t| <= |s| && s[..|t|] == t
    requires |u| <= |t| && t[..|u|] == u
    ensures s[..|u|] == u
  {
    assert s[..|u|] == s[..|t|][..|u|];
  }

  /** The eight group values an id of the 8-4-4-4-12 shape spells. */
  function ParseId(s: string): (q: seq<nat>)
    requires IsIdShape(s)
    ensures |q| == 8
  {
    seq(8, k requires 0 <= k < 8 =>
      assert forall i :: GroupStart(k) <= i < GroupStart(k) + 4 ==> !IsHyphenPos(i);
      HexValue(s[GroupStart(k)..GroupStart(k) + 4]))
  }

  /** Parsing a generated id gives back the values it was generated from. */
  lemma ParseGenerateId(q: seq<nat>)
    requires IsQuads(q)
    ensures ParseId(GenerateId(q)) == q
  {
    var id := GenerateId(q);
    GenerateIdShape(q);
    GenerateIdGroups(q);
    forall k | 0 <= k < 8
      ensures ParseId(id)[k] == q[k]
    {
      assert id[GroupStart(k)..GroupStart(k) + 4] == S4(q[k]);
    }
  }

  /** Every string of the id shape is generated, from the values it spells. */
  lemma GenerateParseId(s: string)
    requires IsIdShape(s)
    ensures IsQuads(ParseId(s)) && GenerateId(ParseId(s)) == s
  {
    var q := ParseId(s);
    forall k | 0 <= k < 8
      ensures q[k] < 0x10000 && S4(q[k]) == s[GroupStart(k)..GroupStart(k) + 4]
    {
      var g := s[GroupStart(k)..GroupStart(k) + 4];
      assert forall i :: GroupStart(k) <= i < GroupStart(k) + 4 ==> !IsHyphenPos(i);
      S4Onto(g);
    }
    var id := GenerateId(q);
    GenerateIdShape(q);
    GenerateIdGroups(q);
    forall i | 0 <= i < 36
      ensures id[i] == s[i]
    {
      if !IsHyphenPos(i) {
        var k := GroupOf(i);
        assert id[i] == id[GroupStart(k)..GroupStart(k) + 4][i - GroupStart(k)];
        assert s[i] == s[GroupStart(k)..GroupStart(k) + 4][i - GroupStart(k)];
      }
    }
  }

  /** Distinct draws give distinct ids. */
  lemma GenerateIdInjective(p: seq<nat>, q: seq<nat>)
    requires IsQuads(p) && IsQuads(q)
    ensures GenerateId(p) == GenerateId(q) <==> p == q
  {
    if GenerateId(p) == GenerateId(q) {
      ParseGenerateId(p);
      ParseGenerateId(q);
    }
  }
}
