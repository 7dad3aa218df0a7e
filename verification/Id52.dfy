/** The text form of a public key: unpadded base32hex (section 7 of RFC 4648) of its 32
    bytes, in lower case. Reading one measures it in UTF-8 bytes and then upper-cases it, both as
    Unicode does.

    Which 32-byte strings are curve points is a parameter: `curve`. */
module Id52 {
  import opened Wrappers
  import opened Radix
  import Utf8

  const LEN := 52

  type PublicKey = key: seq<byte> | |key| == 32 witness Zeros32()

  function Zeros32(): (z: seq<byte>)
    ensures |z| == 32
  {
    seq(32, i => 0)
  }

  datatype Refusal = WrongLength | NotBase32 | NotAPoint

  // -- the alphabet --------------------------------------------------------------

  function UpperChar(c: char): char {
    if 'a' <= c <= 'z' then (c as int - 'a' as int + 'A' as int) as char else c
  }

  function LowerChar(c: char): char {
    if 'A' <= c <= 'Z' then (c as int - 'A' as int + 'a' as int) as char else c
  }

  function Upper(s: string): (u: string)
    ensures |u| == |s| && forall i :: 0 <= i < |s| ==> u[i] == UpperChar(s[i])
  {
    seq(|s|, i requires 0 <= i < |s| => UpperChar(s[i]))
  }

  function Lower(s: string): (l: string)
    ensures |l| == |s| && forall i :: 0 <= i < |s| ==> l[i] == LowerChar(s[i])
  {
    seq(|s|, i requires 0 <= i < |s| => LowerChar(s[i]))
  }

  predicate Ascii(s: string) {
    forall i :: 0 <= i < |s| ==> s[i] as int < 0x80
  }

  /** The upper case of a character. Beyond ASCII only ten characters, the sharp s, the dotless
      i, the long s and the ligatures of f and st, have one that is all ASCII. Any other is left
      as it is here: whatever its upper case, it spells no id52. */
  function UpperOf(c: char): (u: string)
    ensures c as int < 0x80 ==> u == [UpperChar(c)]
  {
    var n := c as int;
    if n < 0x80 then [UpperChar(c)]
    else if n == 0xDF then "SS"
    else if n == 0x131 then "I"
    else if n == 0x17F then "S"
    else if n == 0xFB00 then "FF"
    else if n == 0xFB01 then "FI"
    else if n == 0xFB02 then "FL"
    else if n == 0xFB03 then "FFI"
    else if n == 0xFB04 then "FFL"
    else if n == 0xFB05 || n == 0xFB06 then "ST"
    else [c]
  }

  function Uppercase(s: string): string {
    if s == "" then "" else UpperOf(s[0]) + Uppercase(s[1..])
  }

  /** On ASCII, one character is one byte and has one upper case. */
  lemma {:induction false} AsciiUppercase(s: string)
    requires Ascii(s)
    ensures Uppercase(s) == Upper(s) && |Utf8.Bytes(s)| == |s|
  {
    if s != "" {
      AsciiUppercase(s[1..]);
      assert Upper(s) == [UpperChar(s[0])] + Upper(s[1..]);
    }
  }

  lemma {:induction false} UppercaseOfConcat(s: string, t: string)
    ensures Uppercase(s + t) == Uppercase(s) + Uppercase(t)
  {
    if s == "" {
      assert s + t == t;
    } else {
      assert (s + t)[1..] == s[1..] + t;
      UppercaseOfConcat(s[1..], t);
    }
  }

  function SymbolChar(d: nat): char
    requires d < 32
  {
    if d < 10 then ('0' as int + d) as char else ('A' as int + d - 10) as char
  }

  /** The alphabet of table 4. */
  lemma Alphabet(d: nat)
    requires d < 32
    ensures SymbolChar(d) == "0123456789ABCDEFGHIJKLMNOPQRSTUV"[d]
  {
  }

  function CharSymbol(c: char): (d: Option<nat>)
    ensures d.Some? ==> d.value < 32 && SymbolChar(d.value) == c
  {
    if '0' <= c <= '9' then Some(c as int - '0' as int)
    else if 'A' <= c <= 'V' then Some(c as int - 'A' as int + 10)
    else None
  }

  function Spell(symbols: seq<nat>): (s: string)
    requires Below(symbols, 32)
    ensures |s| == |symbols| && forall i :: 0 <= i < |s| ==> s[i] == SymbolChar(symbols[i])
  {
    seq(|symbols|, i requires 0 <= i < |symbols| => SymbolChar(symbols[i]))
  }

  function Read(s: string): (symbols: Option<seq<nat>>)
    ensures symbols.Some? <==> forall i :: 0 <= i < |s| ==> CharSymbol(s[i]).Some?
    ensures symbols.Some? ==> Below(symbols.value, 32) && Spell(symbols.value) == s
  {
    if s == "" then Some([])
    else
      match (CharSymbol(s[0]), Read(s[1..]))
      case (Some(d), Some(ds)) =>
        var r := [d] + ds;
        assert forall i :: 0 < i < |s| ==> s[i] == s[1..][i - 1] == Spell(ds)[i - 1];
        Some(r)
      case (None, _) => None
      case (_, None) =>
        assert exists i :: 0 <= i < |s[1..]| && CharSymbol(s[1..][i]).None?;
        assert exists i :: 0 <= i < |s| && CharSymbol(s[i]).None? by {
          var i :| 0 <= i < |s[1..]| && CharSymbol(s[1..][i]).None?;
          assert s[i + 1] == s[1..][i];
        }
        None
  }

  lemma ReadOfSpell(symbols: seq<nat>)
    requires Below(symbols, 32)
    ensures Read(Spell(symbols)) == Some(symbols)
  {
    var s := Spell(symbols);
    forall i | 0 <= i < |s| ensures CharSymbol(s[i]) == Some(symbols[i]) {
      assert s[i] == SymbolChar(symbols[i]);
    }
    SameSpelling(Read(s).value, symbols);
  }

  lemma SameSpelling(a: seq<nat>, b: seq<nat>)
    requires Below(a, 32) && Below(b, 32) && Spell(a) == Spell(b)
    ensures a == b
  {
    forall i | 0 <= i < |a| ensures a[i] == b[i] {
      assert SymbolChar(a[i]) == Spell(a)[i] == Spell(b)[i] == SymbolChar(b[i]);
    }
  }

  // -- encode and decode -----------------------------------------------------------

  function Encode(key: PublicKey): string {
    Digits(key);
    Lower(Spell(Radix.Encode(5, key)))
  }

  lemma Digits(key: PublicKey)
    ensures Below(Radix.Encode(5, key), 32) && |Radix.Encode(5, key)| == LEN
  {
    RoundTrip(5, key);
    assert Pow2(5) == 32;
  }

  function Decode(curve: seq<byte> -> bool, s: string): Result<PublicKey, Refusal> {
    if |Utf8.Bytes(s)| != LEN then Failure(WrongLength)
    else
      match Read(Uppercase(s))
      case None => Failure(NotBase32)
      case Some(symbols) =>
        match Radix.Decode(5, symbols)
        case None => Failure(NotBase32)
        case Some(bytes) =>
          if |bytes| != 32 then Failure(NotBase32)
          else if !curve(bytes) then Failure(NotAPoint)
          else Success(bytes)
  }

  /** Decoding accepts exactly the texts of 52 bytes that have the same upper case as some
      point's id52, and returns that point. */
  lemma DecodesExactlyTheSpellings(curve: seq<byte> -> bool, s: string, key: PublicKey)
    ensures Decode(curve, s) == Success(key) <==>
            curve(key) && |Utf8.Bytes(s)| == LEN && Uppercase(s) == Upper(Encode(key))
  {
    Digits(key);
    assert Pow2(5) == 32;
    var symbols := Radix.Encode(5, key);
    UpperOfEncode(key);
    if Decode(curve, s) == Success(key) {
      Canonical(5, Read(Uppercase(s)).value);
    }
    if curve(key) && |Utf8.Bytes(s)| == LEN && Uppercase(s) == Upper(Encode(key)) {
      ReadOfSpell(symbols);
      RoundTrip(5, key);
    }
  }

  lemma UpperOfEncode(key: PublicKey)
    ensures Below(Radix.Encode(5, key), 32) && Upper(Encode(key)) == Spell(Radix.Encode(5, key))
    ensures Ascii(Encode(key)) && |Encode(key)| == LEN
  {
    Digits(key);
    var spelled := Spell(Radix.Encode(5, key));
    forall i | 0 <= i < |spelled| ensures UpperChar(LowerChar(spelled[i])) == spelled[i] {
      assert spelled[i] == SymbolChar(Radix.Encode(5, key)[i]);
    }
  }

  /** Of ASCII texts it accepts exactly the spellings of id52s in either case. */
  lemma DecodesEitherCase(curve: seq<byte> -> bool, s: string, key: PublicKey)
    requires Ascii(s)
    ensures Decode(curve, s) == Success(key) <==> curve(key) && Lower(s) == Encode(key)
  {
    DecodesExactlyTheSpellings(curve, s, key);
    AsciiUppercase(s);
    UpperOfEncode(key);
    SameUpperSameLower(s, Encode(key));
    assert Lower(Encode(key)) == Encode(key);
  }

  lemma SameUpperSameLower(s: string, t: string)
    ensures Upper(s) == Upper(t) <==> Lower(s) == Lower(t)
  {
    if Upper(s) == Upper(t) {
      forall i | 0 <= i < |s| ensures LowerChar(s[i]) == LowerChar(t[i]) {
        assert UpperChar(s[i]) == Upper(s)[i] == Upper(t)[i] == UpperChar(t[i]);
      }
    }
    if Lower(s) == Lower(t) {
      forall i | 0 <= i < |s| ensures UpperChar(s[i]) == UpperChar(t[i]) {
        assert LowerChar(s[i]) == Lower(s)[i] == Lower(t)[i] == LowerChar(t[i]);
      }
    }
  }

  const SHARP_S := "\U{00DF}"

  /** A sharp s has the bytes and the upper case of two letters s. */
  lemma SharpS()
    ensures Uppercase(SHARP_S) == Uppercase("ss") && |Utf8.Bytes(SHARP_S)| == |Utf8.Bytes("ss")|
  {
    AsciiUppercase("ss");
    assert SHARP_S[1..] == "";
    assert Uppercase(SHARP_S) == "SS" + "";
    assert Upper("ss") == "SS";
    assert Utf8.Bytes(SHARP_S) == Utf8.CharBytes(SHARP_S[0]) + [];
  }

  lemma ReplacedInside(a: string, x: string, y: string, b: string)
    requires Uppercase(x) == Uppercase(y) && |Utf8.Bytes(x)| == |Utf8.Bytes(y)|
    ensures Uppercase(a + x + b) == Uppercase(a + y + b) && |Utf8.Bytes(a + x + b)| == |Utf8.Bytes(a + y + b)|
  {
    SplitInThree(a, x, b);
    SplitInThree(a, y, b);
  }

  lemma SplitInThree(a: string, x: string, b: string)
    ensures Uppercase(a + x + b) == Uppercase(a) + Uppercase(x) + Uppercase(b)
    ensures Utf8.Bytes(a + x + b) == Utf8.Bytes(a) + Utf8.Bytes(x) + Utf8.Bytes(b)
  {
    UppercaseOfConcat(a + x, b);
    UppercaseOfConcat(a, x);
    Utf8.BytesOfConcat(a + x, b);
    Utf8.BytesOfConcat(a, x);
  }

  /** It accepts others: an id52 with a sharp s in place of two letters s. */
  lemma SharpSIsAccepted(curve: seq<byte> -> bool, key: PublicKey, i: nat)
    requires curve(key) && i + 2 <= LEN && Encode(key)[i..i + 2] == "ss"
    ensures
      var s := Encode(key)[..i] + SHARP_S + Encode(key)[i + 2..];
      !Ascii(s) && Decode(curve, s) == Success(key)
  {
    UpperOfEncode(key);
    var a, b := Encode(key)[..i], Encode(key)[i + 2..];
    assert Encode(key) == a + "ss" + b;
    SharpS();
    ReplacedInside(a, SHARP_S, "ss", b);
    AsciiUppercase(Encode(key));
    DecodesExactlyTheSpellings(curve, a + SHARP_S + b, key);
    assert (a + SHARP_S + b)[i] == SHARP_S[0];
  }

  /** An id52 is 52 characters, already in lower case, and both it and its upper-case
      form read back as the key. */
  lemma EncodeThenDecode(curve: seq<byte> -> bool, key: PublicKey)
    requires curve(key)
    ensures |Encode(key)| == LEN && Lower(Encode(key)) == Encode(key)
    ensures Decode(curve, Encode(key)) == Success(key)
    ensures Decode(curve, Upper(Encode(key))) == Success(key)
  {
    UpperOfEncode(key);
    assert Lower(Encode(key)) == Encode(key);
    assert Lower(Upper(Encode(key))) == Lower(Encode(key));
    DecodesEitherCase(curve, Encode(key), key);
    DecodesEitherCase(curve, Upper(Encode(key)), key);
  }

  lemma EncodeInjective(a: PublicKey, b: PublicKey)
    requires Encode(a) == Encode(b)
    ensures a == b
  {
    EncodeThenDecode(k => true, a);
    EncodeThenDecode(k => true, b);
  }

  /** Two accepted texts name one key exactly when they have the same upper case; in ASCII, when
      they differ in case only. */
  lemma SameKeyIsSameUppercase(curve: seq<byte> -> bool, s: string, t: string)
    requires Decode(curve, s).Success? && Decode(curve, t).Success?
    ensures Decode(curve, s) == Decode(curve, t) <==> Uppercase(s) == Uppercase(t)
    ensures Ascii(s) && Ascii(t) ==> (Decode(curve, s) == Decode(curve, t) <==> Lower(s) == Lower(t))
  {
    var a, b := Decode(curve, s).value, Decode(curve, t).value;
    DecodesExactlyTheSpellings(curve, s, a);
    DecodesExactlyTheSpellings(curve, t, b);
    if Uppercase(s) == Uppercase(t) {
      DecodesExactlyTheSpellings(curve, t, a);
    }
    if Ascii(s) && Ascii(t) {
      AsciiUppercase(s);
      AsciiUppercase(t);
      SameUpperSameLower(s, t);
    }
  }

  // -- order -------------------------------------------------------------------------

  function Codes(s: string): (codes: seq<nat>)
    ensures |codes| == |s| && forall i :: 0 <= i < |s| ==> codes[i] == s[i] as int
  {
    seq(|s|, i requires 0 <= i < |s| => s[i] as int)
  }

  /** Text order: character by character, which for ASCII is byte by byte. */
  predicate TextLess(s: string, t: string) {
    Less(Codes(s), Codes(t))
  }

  lemma {:induction false} LessOfSpelling(a: seq<nat>, b: seq<nat>)
    requires Below(a, 32) && Below(b, 32) && |a| == |b|
    ensures TextLess(Lower(Spell(a)), Lower(Spell(b))) <==> Less(a, b)
  {
    if a != [] {
      LessOfSpelling(a[1..], b[1..]);
      assert Codes(Lower(Spell(a)))[1..] == Codes(Lower(Spell(a[1..])));
      assert Codes(Lower(Spell(b)))[1..] == Codes(Lower(Spell(b[1..])));
    }
  }

  /** Sorting id52s sorts the keys. */
  lemma OrderIsByteOrder(a: PublicKey, b: PublicKey)
    ensures TextLess(Encode(a), Encode(b)) <==> Less(a, b)
  {
    Digits(a);
    Digits(b);
    LessOfSpelling(Radix.Encode(5, a), Radix.Encode(5, b));
    OrderPreserved(5, a, b);
  }
}
