/** Unpadded base-2^w text, as section 3 and 4 of RFC 4648 lay it out: the bits of the
    input in order, cut into w-bit symbols, the last one filled up with zero bits.

    Width 5 is the arithmetic under an id52, width 6 the arithmetic under an invite and
    a signature. Nothing here knows about characters. */
module Radix {
  import opened Wrappers

  type byte = b: nat | b < 256 witness 0

  function Pow2(n: nat): (p: nat)
    ensures p > 0
  {
    if n == 0 then 1 else 2 * Pow2(n - 1)
  }

  ghost predicate Below(ds: seq<nat>, base: nat) {
    forall i :: 0 <= i < |ds| ==> ds[i] < base
  }

  /** Lexicographic order on digit sequences. */
  predicate Less(a: seq<nat>, b: seq<nat>) {
    if a == [] || b == [] then a == [] && b != []
    else a[0] < b[0] || (a[0] == b[0] && Less(a[1..], b[1..]))
  }

  // -- one number, as bits ---------------------------------------------------

  function Bits(w: nat, v: nat): (bits: seq<nat>)
    ensures |bits| == w && Below(bits, 2)
  {
    if w == 0 then [] else Bits(w - 1, v / 2) + [v % 2]
  }

  function Value(bits: seq<nat>): nat {
    if bits == [] then 0 else 2 * Value(bits[..|bits| - 1]) + bits[|bits| - 1]
  }

  lemma {:induction false} ValueOfBits(w: nat, v: nat)
    requires v < Pow2(w)
    ensures Value(Bits(w, v)) == v
  {
    if w > 0 {
      ValueOfBits(w - 1, v / 2);
      assert Bits(w, v)[..w - 1] == Bits(w - 1, v / 2);
    }
  }

  lemma {:induction false} BitsOfValue(bits: seq<nat>)
    requires Below(bits, 2)
    ensures Value(bits) < Pow2(|bits|) && Bits(|bits|, Value(bits)) == bits
  {
    if bits != [] {
      BitsOfValue(bits[..|bits| - 1]);
    }
  }

  // -- a sequence of numbers, as bits -----------------------------------------

  function Flatten(w: nat, vs: seq<nat>): (bits: seq<nat>)
    ensures |bits| == w * |vs| && Below(bits, 2)
  {
    if vs == [] then [] else
      assert w * |vs| == w + w * |vs[1..]|;
      Bits(w, vs[0]) + Flatten(w, vs[1..])
  }

  /** The first `n` groups of `w` bits, each read as a number. */
  function Group(w: nat, n: nat, bits: seq<nat>): (vs: seq<nat>)
    requires |bits| == w * n
    ensures |vs| == n
  {
    if n == 0 then [] else
      assert w * n == w + w * (n - 1);
      [Value(bits[..w])] + Group(w, n - 1, bits[w..])
  }

  lemma {:induction false} GroupOfFlatten(w: nat, vs: seq<nat>)
    requires Below(vs, Pow2(w))
    ensures Group(w, |vs|, Flatten(w, vs)) == vs
  {
    if vs != [] {
      assert w * |vs| == w + w * |vs[1..]|;
      GroupOfFlatten(w, vs[1..]);
      ValueOfBits(w, vs[0]);
      var bits := Flatten(w, vs);
      assert bits[..w] == Bits(w, vs[0]) && bits[w..] == Flatten(w, vs[1..]);
    }
  }

  lemma {:induction false} FlattenOfGroup(w: nat, n: nat, bits: seq<nat>)
    requires |bits| == w * n && Below(bits, 2)
    ensures Below(Group(w, n, bits), Pow2(w)) && Flatten(w, Group(w, n, bits)) == bits
  {
    if n > 0 {
      assert w * n == w + w * (n - 1);
      FlattenOfGroup(w, n - 1, bits[w..]);
      BitsOfValue(bits[..w]);
      assert Group(w, n, bits)[1..] == Group(w, n - 1, bits[w..]);
      assert bits == bits[..w] + bits[w..];
    }
  }

  // -- whole texts -------------------------------------------------------------

  /** How many `w`-bit symbols `n` bits need. */
  function Symbols(w: nat, n: nat): (k: nat)
    requires w > 0
    ensures w * k >= n && w * k < n + w
  {
    var k := (n + w - 1) / w;
    DivBounds(n + w - 1, w);
    k
  }

  lemma DivBounds(n: nat, w: nat)
    requires w > 0
    ensures n / w >= 0 && w * (n / w) <= n < w * (n / w) + w
  {
  }

  function Zeros(n: nat): (z: seq<nat>)
    ensures |z| == n && Below(z, 2)
  {
    seq(n, i => 0)
  }

  function Encode(w: nat, bytes: seq<byte>): (symbols: seq<nat>)
    requires w > 0
    ensures |symbols| == Symbols(w, 8 * |bytes|)
  {
    var bits := Flatten(8, bytes);
    var k := Symbols(w, |bits|);
    Group(w, k, bits + Zeros(w * k - |bits|))
  }

  /** Refuses a length no byte string encodes to, and non-zero trailing bits
      (section 3.5 of RFC 4648). */
  function Decode(w: nat, symbols: seq<nat>): (bytes: Option<seq<byte>>)
    requires w > 0
  {
    var bits := Flatten(w, symbols);
    var n := |bits| / 8;
    if |bits| - 8 * n >= w || bits[8 * n..] != Zeros(|bits| - 8 * n) then None
    else
      var values := Group(8, n, bits[..8 * n]);
      GroupBelow(8, n, bits[..8 * n]);
      Some(AsBytes(values))
  }

  lemma GroupBelow(w: nat, n: nat, bits: seq<nat>)
    requires |bits| == w * n && Below(bits, 2)
    ensures Below(Group(w, n, bits), Pow2(w))
  {
    FlattenOfGroup(w, n, bits);
  }

  function AsBytes(values: seq<nat>): (bytes: seq<byte>)
    requires Below(values, Pow2(8))
    ensures bytes == values
  {
    assert Pow2(8) == 256;
    seq(|values|, i requires 0 <= i < |values| => values[i] as byte)
  }

  lemma DecodePadded(w: nat, symbols: seq<nat>, n: nat, bits: seq<nat>, zeros: nat)
    requires 0 < w <= 8 && zeros < w && |bits| == 8 * n && Below(bits, 2)
    requires Flatten(w, symbols) == bits + Zeros(zeros)
    ensures Decode(w, symbols).Some? && Decode(w, symbols).value == Group(8, n, bits)
  {
    var all := Flatten(w, symbols);
    assert |all| == 8 * n + zeros;
    assert all[..8 * n] == bits && all[8 * n..] == Zeros(zeros);
  }

  /** Decoding undoes encoding, for byte strings of every length. */
  lemma RoundTrip(w: nat, bytes: seq<byte>)
    requires 0 < w <= 8
    ensures Below(Encode(w, bytes), Pow2(w))
    ensures Decode(w, Encode(w, bytes)) == Some(bytes)
  {
    var bits := Flatten(8, bytes);
    var k := Symbols(w, |bits|);
    FlattenOfGroup(w, k, bits + Zeros(w * k - |bits|));
    DecodePadded(w, Encode(w, bytes), |bytes|, bits, w * k - |bits|);
    assert Pow2(8) == 256;
    GroupOfFlatten(8, bytes);
  }

  lemma DecodedBits(w: nat, symbols: seq<nat>)
    requires 0 < w <= 8 && Below(symbols, Pow2(w)) && Decode(w, symbols).Some?
    ensures
      var bits := Flatten(w, symbols);
      var n := |bits| / 8;
      && |Decode(w, symbols).value| == n && |bits| - 8 * n < w
      && Flatten(8, Decode(w, symbols).value) == bits[..8 * n]
      && bits == bits[..8 * n] + Zeros(|bits| - 8 * n)
  {
    var bits := Flatten(w, symbols);
    var n := |bits| / 8;
    FlattenOfGroup(8, n, bits[..8 * n]);
    assert bits == bits[..8 * n] + bits[8 * n..];
  }

  lemma SymbolsCount(w: nat, n: nat, m: nat)
    requires 0 < w <= 8 && 8 * n <= w * m < 8 * n + w
    ensures Symbols(w, 8 * n) == m
  {
    SameQuotient(w, Symbols(w, 8 * n), m, 8 * n);
  }

  /** Whatever decodes is the encoding of what it decodes to: one text per byte string. */
  lemma Canonical(w: nat, symbols: seq<nat>)
    requires 0 < w <= 8 && Below(symbols, Pow2(w))
    requires Decode(w, symbols).Some?
    ensures Encode(w, Decode(w, symbols).value) == symbols
  {
    var bits := Flatten(w, symbols);
    var n := |bits| / 8;
    DecodedBits(w, symbols);
    SymbolsCount(w, n, |symbols|);
    GroupOfFlatten(w, symbols);
  }

  lemma SameQuotient(w: nat, k: nat, m: nat, n: nat)
    requires n <= w * k < n + w && n <= w * m < n + w
    ensures k == m
  {
    if k < m {
      NextMultiple(w, k, m);
    } else if m < k {
      NextMultiple(w, m, k);
    }
  }

  lemma {:induction false} NextMultiple(w: nat, a: nat, b: nat)
    requires a < b
    ensures w * a + w <= w * b
  {
    assert w * b == w * (b - 1) + w;
    if a + 1 < b {
      NextMultiple(w, a, b - 1);
    }
  }

  // -- order -------------------------------------------------------------------

  lemma {:induction false} LessOfConcat(a: seq<nat>, b: seq<nat>, x: seq<nat>, y: seq<nat>)
    requires |a| == |b|
    ensures Less(a + x, b + y) <==> (Less(a, b) || (a == b && Less(x, y)))
  {
    if a == [] {
      assert a + x == x && b + y == y;
    } else {
      assert (a + x)[1..] == a[1..] + x && (b + y)[1..] == b[1..] + y;
      LessOfConcat(a[1..], b[1..], x, y);
      assert a == b <==> a[0] == b[0] && a[1..] == b[1..];
    }
  }

  lemma {:induction false} LessIrreflexive(a: seq<nat>)
    ensures !Less(a, a)
  {
    if a != [] {
      LessIrreflexive(a[1..]);
    }
  }

  lemma BitsInjective(w: nat, u: nat, v: nat)
    requires u < Pow2(w) && v < Pow2(w)
    ensures Bits(w, u) == Bits(w, v) <==> u == v
  {
    ValueOfBits(w, u);
    ValueOfBits(w, v);
  }

  lemma {:induction false} LessOfBits(w: nat, u: nat, v: nat)
    requires u < Pow2(w) && v < Pow2(w)
    ensures Less(Bits(w, u), Bits(w, v)) <==> u < v
  {
    if w > 0 {
      LessOfBits(w - 1, u / 2, v / 2);
      BitsInjective(w - 1, u / 2, v / 2);
      LessOfConcat(Bits(w - 1, u / 2), Bits(w - 1, v / 2), [u % 2], [v % 2]);
    }
  }

  lemma {:induction false} LessOfFlatten(w: nat, a: seq<nat>, b: seq<nat>)
    requires |a| == |b| && Below(a, Pow2(w)) && Below(b, Pow2(w))
    ensures Less(Flatten(w, a), Flatten(w, b)) <==> Less(a, b)
  {
    if a != [] {
      LessOfBits(w, a[0], b[0]);
      BitsInjective(w, a[0], b[0]);
      LessOfConcat(Bits(w, a[0]), Bits(w, b[0]), Flatten(w, a[1..]), Flatten(w, b[1..]));
      LessOfFlatten(w, a[1..], b[1..]);
    }
  }

  /** Byte strings of one length sort as their texts do. */
  lemma OrderPreserved(w: nat, a: seq<byte>, b: seq<byte>)
    requires 0 < w <= 8 && |a| == |b|
    ensures Less(Encode(w, a), Encode(w, b)) <==> Less(a, b)
  {
    assert Pow2(8) == 256;
    LessOfFlatten(8, a, b);
    var k := Symbols(w, 8 * |a|);
    var zeros := Zeros(w * k - 8 * |a|);
    LessOfConcat(Flatten(8, a), Flatten(8, b), zeros, zeros);
    LessIrreflexive(zeros);
    FlattenOfGroup(w, k, Flatten(8, a) + zeros);
    FlattenOfGroup(w, k, Flatten(8, b) + zeros);
    LessOfFlatten(w, Encode(w, a), Encode(w, b));
  }
}
