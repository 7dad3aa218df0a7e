/** The bytes of a string, which is what a signature covers. */
module Utf8 {
  import opened Radix

  function CharBytes(c: char): (bytes: seq<byte>)
    ensures bytes != []
  {
    var u := c as int;
    if u < 0x80 then [u]
    else if u < 0x800 then [0xC0 + u / 0x40, 0x80 + u % 0x40]
    else if u < 0x1_0000 then [0xE0 + u / 0x1000, 0x80 + u / 0x40 % 0x40, 0x80 + u % 0x40]
    else [0xF0 + u / 0x4_0000, 0x80 + u / 0x1000 % 0x40, 0x80 + u / 0x40 % 0x40, 0x80 + u % 0x40]
  }

  function Bytes(s: string): seq<byte> {
    if s == "" then [] else CharBytes(s[0]) + Bytes(s[1..])
  }

  /** The byte sequences of section 3 of RFC 3629: the lead byte says how many follow, each of those
      carries six bits, and together they are the code point, in the fewest bytes it fits in. */
  lemma CodePoint(c: char)
    ensures
      var b, u := CharBytes(c), c as int;
      && |b| <= 4 && (forall i :: 0 < i < |b| ==> 0x80 <= b[i] < 0xC0)
      && (|b| == 1 ==> u < 0x80 && b[0] == u)
      && (|b| == 2 ==> 0x80 <= u < 0x800 && 0xC0 <= b[0] < 0xE0
                       && u == (b[0] as int - 0xC0) * 0x40 + Six(b[1]))
      && (|b| == 3 ==> 0x800 <= u < 0x1_0000 && 0xE0 <= b[0] < 0xF0
                       && u == (b[0] as int - 0xE0) * 0x1000 + Six(b[1]) * 0x40 + Six(b[2]))
      && (|b| == 4 ==> 0x1_0000 <= u && 0xF0 <= b[0] < 0xF8
                       && u == (b[0] as int - 0xF0) * 0x4_0000 + Six(b[1]) * 0x1000 + Six(b[2]) * 0x40 + Six(b[3]))
  {
    Quotients(c as int);
  }

  /** What a byte after the first carries. */
  function Six(b: byte): int {
    b as int - 0x80
  }

  lemma SameLead(c: char, d: char)
    requires CharBytes(c)[0] == CharBytes(d)[0]
    ensures |CharBytes(c)| == |CharBytes(d)|
  {
  }

  lemma SplitBase64(u: nat, v: nat)
    requires u / 0x40 == v / 0x40 && u % 0x40 == v % 0x40
    ensures u == v
  {
  }

  lemma SameChar(c: char, d: char)
    requires CharBytes(c) == CharBytes(d)
    ensures c == d
  {
    SameLead(c, d);
    var u, v := c as int, d as int;
    var n := |CharBytes(c)|;
    if n > 1 {
      assert CharBytes(c)[n - 1] == CharBytes(d)[n - 1];
      SameHigh(c, d);
      SplitBase64(u, v);
    }
  }

  lemma SameHigh(c: char, d: char)
    requires CharBytes(c) == CharBytes(d) && |CharBytes(c)| == |CharBytes(d)| > 1
    ensures c as int / 0x40 == d as int / 0x40
  {
    var u, v := c as int, d as int;
    var n := |CharBytes(c)|;
    assert CharBytes(c)[0] == CharBytes(d)[0];
    if n == 3 {
      assert CharBytes(c)[1] == CharBytes(d)[1];
      Quotients(u);
      Quotients(v);
      SplitBase64(u / 0x40, v / 0x40);
    } else if n == 4 {
      assert CharBytes(c)[1] == CharBytes(d)[1] && CharBytes(c)[2] == CharBytes(d)[2];
      Quotients(u);
      Quotients(v);
      SplitBase64(u / 0x1000, v / 0x1000);
      SplitBase64(u / 0x40, v / 0x40);
    }
  }

  lemma Quotients(u: nat)
    ensures u / 0x40 / 0x40 == u / 0x1000 && u / 0x1000 / 0x40 == u / 0x4_0000
  {
  }

  lemma SameFirstChar(c: char, d: char, x: seq<byte>, y: seq<byte>)
    requires CharBytes(c) + x == CharBytes(d) + y
    ensures c == d && x == y
  {
    var cs, ds := CharBytes(c), CharBytes(d);
    var all := cs + x;
    assert cs[0] == all[0] == ds[0];
    SameLead(c, d);
    assert cs == all[..|cs|] == ds;
    assert x == all[|cs|..] == y;
    SameChar(c, d);
  }

  lemma {:induction false} BytesInjective(s: string, t: string)
    requires Bytes(s) == Bytes(t)
    ensures s == t
  {
    if s != "" && t != "" {
      SameFirstChar(s[0], t[0], Bytes(s[1..]), Bytes(t[1..]));
      BytesInjective(s[1..], t[1..]);
    }
  }

  lemma {:induction false} BytesOfConcat(s: string, t: string)
    ensures Bytes(s + t) == Bytes(s) + Bytes(t)
  {
    if s == "" {
      assert s + t == t;
    } else {
      assert (s + t)[1..] == s[1..] + t;
      BytesOfConcat(s[1..], t);
    }
  }
}
