/** Unpadded base64url (section 5 of RFC 4648), which carries invites and signatures as text. */
module Base64Url {
  import opened Wrappers
  import opened Radix

  function SymbolChar(d: nat): char
    requires d < 64
  {
    if d < 26 then ('A' as int + d) as char
    else if d < 52 then ('a' as int + d - 26) as char
    else if d < 62 then ('0' as int + d - 52) as char
    else if d == 62 then '-' else '_'
  }

  /** The alphabet of table 2. */
  lemma Alphabet(d: nat)
    requires d < 64
    ensures d < 26 ==> SymbolChar(d) == "ABCDEFGHIJKLMNOPQRSTUVWXYZ"[d]
    ensures 26 <= d < 52 ==> SymbolChar(d) == "abcdefghijklmnopqrstuvwxyz"[d - 26]
    ensures 52 <= d ==> SymbolChar(d) == "0123456789-_"[d - 52]
  {
  }

  function CharSymbol(c: char): (d: Option<nat>)
    ensures d.Some? ==> d.value < 64 && SymbolChar(d.value) == c
  {
    if 'A' <= c <= 'Z' then Some(c as int - 'A' as int)
    else if 'a' <= c <= 'z' then Some(c as int - 'a' as int + 26)
    else if '0' <= c <= '9' then Some(c as int - '0' as int + 52)
    else if c == '-' then Some(62)
    else if c == '_' then Some(63)
    else None
  }

  predicate InAlphabet(s: string) {
    forall i :: 0 <= i < |s| ==> CharSymbol(s[i]).Some?
  }

  function Spell(symbols: seq<nat>): (s: string)
    requires Below(symbols, 64)
    ensures |s| == |symbols| && forall i :: 0 <= i < |s| ==> s[i] == SymbolChar(symbols[i])
  {
    seq(|symbols|, i requires 0 <= i < |symbols| => SymbolChar(symbols[i]))
  }

  function Read(s: string): (symbols: seq<nat>)
    requires InAlphabet(s)
    ensures Below(symbols, 64) && Spell(symbols) == s
  {
    seq(|s|, i requires 0 <= i < |s| => CharSymbol(s[i]).value)
  }

  function Encode(bytes: seq<byte>): string {
    SixBits(bytes);
    Spell(Radix.Encode(6, bytes))
  }

  lemma SixBits(bytes: seq<byte>)
    ensures Below(Radix.Encode(6, bytes), 64)
  {
    RoundTrip(6, bytes);
    assert Pow2(6) == 64;
  }

  function Decode(s: string): Option<seq<byte>> {
    if InAlphabet(s) then Radix.Decode(6, Read(s)) else None
  }

  lemma ReadOfSpell(symbols: seq<nat>)
    requires Below(symbols, 64)
    ensures InAlphabet(Spell(symbols)) && Read(Spell(symbols)) == symbols
  {
    var s := Spell(symbols);
    forall i | 0 <= i < |s| ensures CharSymbol(s[i]) == Some(symbols[i]) {
      assert s[i] == SymbolChar(symbols[i]);
    }
    assert Read(s) == symbols;
  }

  /** Decoding undoes encoding whatever the length leaves over modulo three, and only the
      encoding of a byte string decodes to it. */
  lemma DecodesExactlyTheEncoding(s: string, bytes: seq<byte>)
    ensures Decode(s) == Some(bytes) <==> s == Encode(bytes)
  {
    SixBits(bytes);
    assert Pow2(6) == 64;
    if Decode(s) == Some(bytes) {
      Canonical(6, Read(s));
    }
    if s == Encode(bytes) {
      ReadOfSpell(Radix.Encode(6, bytes));
      RoundTrip(6, bytes);
    }
  }
}
