/** The sealed ticket: what is signed, how a ticket is minted, and when a device accepts one.

    Signatures are a pair of functions. `sign(id, bytes)` is the signature made with the
    secret of `id`; `verify` is the public check. Nothing is taken for granted of them: that
    what is signed verifies, and that what verifies was signed, are stated of the ticket at
    hand where they are used. */
module Ticket {
  import opened Wrappers
  import opened Radix
  import opened Proto
  import Base64Url
  import Utf8

  const LIFETIME_SECS := 300
  const SIGNATURE_LENGTH := 64

  const U64_LIMIT := 0x1_0000_0000_0000_0000

  type u64 = t: nat | t < U64_LIMIT

  /** The signed fields. */
  datatype Claims = Claims(name: string, caller: Id, alias: Option<string>, validUntil: u64, issuer: Id)

  datatype Ticket = Ticket(claims: Claims, signature: string)

  datatype Scheme = Scheme(
    sign: (Id, seq<byte>) -> seq<byte>,
    verify: (Id, seq<byte>, seq<byte>) -> bool)
  {
    /** The issuer's signature of these claims is 64 bytes and verifies. */
    predicate Signs(c: Claims) {
      var signature := sign(c.issuer, SignedBytes(c));
      |signature| == SIGNATURE_LENGTH && verify(c.issuer, SignedBytes(c), signature)
    }
  }

  // -- the signed bytes -----------------------------------------------------------------

  const LENGTH_BYTES := 4
  const TIME_BYTES := 8

  function BigEndian(width: nat, v: nat): (bytes: seq<byte>)
    ensures |bytes| == width
  {
    if width == 0 then [] else BigEndian(width - 1, v / 256) + [v % 256]
  }

  /** A length cut to 32 bits, then the field. */
  function Framed(field: seq<byte>): seq<byte> {
    BigEndian(LENGTH_BYTES, |field|) + field
  }

  function FramedAll(fields: seq<seq<byte>>): seq<byte> {
    if fields == [] then [] else Framed(fields[0]) + FramedAll(fields[1..])
  }

  function Fields(c: Claims): seq<seq<byte>> {
    var alias := match c.alias case Some(a) => a case None => "";
    [Utf8.Bytes(c.name), Utf8.Bytes(c.caller), Utf8.Bytes(alias), Utf8.Bytes(c.issuer)]
  }

  function SignedBytes(c: Claims): seq<byte> {
    FramedAll(Fields(c)) + BigEndian(TIME_BYTES, c.validUntil)
  }

  /** The bytes, appended field by field. */
  method BuildSignedBytes(c: Claims) returns (out: seq<byte>)
    ensures out == SignedBytes(c)
  {
    out := AppendFields(Fields(c));
    out := out + BigEndian(TIME_BYTES, c.validUntil);
  }

  method AppendFields(fields: seq<seq<byte>>) returns (out: seq<byte>)
    ensures out == FramedAll(fields)
  {
    out := [];
    for i := 0 to |fields|
      invariant out + FramedAll(fields[i..]) == FramedAll(fields)
    {
      OneMoreField(out, fields[i..]);
      assert fields[i..][1..] == fields[i + 1..];
      out := out + BigEndian(LENGTH_BYTES, |fields[i]|);
      out := out + fields[i];
    }
    assert FramedAll(fields[|fields|..]) == [];
    assert out + [] == out;
  }

  lemma OneMoreField(out: seq<byte>, fields: seq<seq<byte>>)
    requires fields != []
    ensures out + BigEndian(LENGTH_BYTES, |fields[0]|) + fields[0] + FramedAll(fields[1..]) == out + FramedAll(fields)
  {
  }

  lemma {:induction false} BigEndianInjective(width: nat, u: nat, v: nat)
    requires BigEndian(width, u) == BigEndian(width, v)
    requires u < Pow2(8 * width) && v < Pow2(8 * width)
    ensures u == v
  {
    if width > 0 {
      var bu, bv := BigEndian(width, u), BigEndian(width, v);
      assert bu[width - 1] == bv[width - 1];
      assert bu[..width - 1] == BigEndian(width - 1, u / 256);
      assert bv[..width - 1] == BigEndian(width - 1, v / 256);
      EightMore(8 * (width - 1));
      BigEndianInjective(width - 1, u / 256, v / 256);
    }
  }

  lemma EightMore(n: nat)
    ensures Pow2(n + 8) == 256 * Pow2(n)
  {
    assert Pow2(n + 8) == 2 * Pow2(n + 7);
    assert Pow2(n + 7) == 2 * Pow2(n + 6);
    assert Pow2(n + 6) == 2 * Pow2(n + 5);
    assert Pow2(n + 5) == 2 * Pow2(n + 4);
    assert Pow2(n + 4) == 2 * Pow2(n + 3);
    assert Pow2(n + 3) == 2 * Pow2(n + 2);
    assert Pow2(n + 2) == 2 * Pow2(n + 1);
  }

  lemma Pow32And64()
    ensures Pow2(32) == 0x1_0000_0000 && Pow2(64) == U64_LIMIT
  {
    EightMore(0); EightMore(8); EightMore(16); EightMore(24);
    EightMore(32); EightMore(40); EightMore(48); EightMore(56);
  }

  const U32_LIMIT := 0x1_0000_0000

  /** Every field's length survives being cut to 32 bits. */
  predicate Fits(c: Claims) {
    forall i :: 0 <= i < 4 ==> |Fields(c)[i]| < U32_LIMIT
  }

  lemma FramedFront(f: seq<byte>, g: seq<byte>, x: seq<byte>, y: seq<byte>)
    requires Framed(f) + x == Framed(g) + y
    requires |f| < U32_LIMIT && |g| < U32_LIMIT
    ensures f == g && x == y
  {
    var a, b := Framed(f) + x, Framed(g) + y;
    assert BigEndian(LENGTH_BYTES, |f|) == a[..4] == b[..4] == BigEndian(LENGTH_BYTES, |g|);
    Pow32And64();
    BigEndianInjective(4, |f|, |g|);
    assert f == a[4..4 + |f|] == b[4..4 + |g|] == g;
    assert x == a[4 + |f|..] == b[4 + |g|..] == y;
  }

  lemma {:induction false} FramesInjective(fs: seq<seq<byte>>, gs: seq<seq<byte>>, x: seq<byte>, y: seq<byte>)
    requires |fs| == |gs|
    requires forall i :: 0 <= i < |fs| ==> |fs[i]| < U32_LIMIT && |gs[i]| < U32_LIMIT
    requires FramedAll(fs) + x == FramedAll(gs) + y
    ensures fs == gs && x == y
  {
    if fs == [] {
      assert x == FramedAll(fs) + x && y == FramedAll(gs) + y;
    } else {
      var restF, restG := FramedAll(fs[1..]) + x, FramedAll(gs[1..]) + y;
      assert FramedAll(fs) + x == Framed(fs[0]) + restF;
      assert FramedAll(gs) + y == Framed(gs[0]) + restG;
      FramedFront(fs[0], gs[0], restF, restG);
      FramesInjective(fs[1..], gs[1..], x, y);
      assert fs == [fs[0]] + fs[1..] && gs == [gs[0]] + gs[1..];
    }
  }

  /** What a ticket says, an absent alias and an empty one being the same. */
  predicate SameClaims(a: Claims, b: Claims) {
    && a.name == b.name && a.caller == b.caller && a.issuer == b.issuer
    && a.validUntil == b.validUntil
    && (if a.alias.Some? then a.alias.value else "") == (if b.alias.Some? then b.alias.value else "")
  }

  /** No rearrangement of field values signs as a different ticket: for fields that fit, the
      bytes agree exactly when the claims do. */
  lemma SignedBytesInjective(a: Claims, b: Claims)
    requires Fits(a) && Fits(b)
    ensures SignedBytes(a) == SignedBytes(b) <==> SameClaims(a, b)
  {
    var f, g := Fields(a), Fields(b);
    var s, t := BigEndian(TIME_BYTES, a.validUntil), BigEndian(TIME_BYTES, b.validUntil);
    if SignedBytes(a) == SignedBytes(b) {
      FramesInjective(f, g, s, t);
      assert f[0] == g[0] && f[1] == g[1] && f[2] == g[2] && f[3] == g[3];
      Pow32And64();
      BigEndianInjective(8, a.validUntil, b.validUntil);
      Utf8.BytesInjective(a.name, b.name);
      Utf8.BytesInjective(a.caller, b.caller);
      Utf8.BytesInjective(if a.alias.Some? then a.alias.value else "", if b.alias.Some? then b.alias.value else "");
      Utf8.BytesInjective(a.issuer, b.issuer);
    }
  }

  // -- the layout, byte by byte --------------------------------------------------------------

  /** The most significant byte first. */
  function Four(v: nat): seq<byte> {
    [v / 0x100_0000 % 0x100, v / 0x1_0000 % 0x100, v / 0x100 % 0x100, v % 0x100]
  }

  function Eight(v: nat): seq<byte> {
    Four(v / 0x1_0000_0000) + Four(v)
  }

  lemma LastByte(width: nat, v: nat)
    ensures BigEndian(width + 1, v) == BigEndian(width, v / 0x100) + [v % 0x100]
  {
  }

  lemma Shifts(v: nat)
    ensures v / 0x100 / 0x100 == v / 0x1_0000
    ensures v / 0x1_0000 / 0x100 == v / 0x100_0000
    ensures v / 0x100_0000 / 0x100 == v / 0x1_0000_0000
  {
  }

  /** Four bytes after any others. */
  lemma LastFour(width: nat, v: nat)
    ensures BigEndian(width + 4, v) == BigEndian(width, v / 0x1_0000_0000) + Four(v)
  {
    Shifts(v);
    LastByte(width, v / 0x100_0000);
    LastByte(width + 1, v / 0x1_0000);
    LastByte(width + 2, v / 0x100);
    LastByte(width + 3, v);
  }

  lemma FourBytes(v: nat)
    ensures BigEndian(4, v) == Four(v)
  {
    LastFour(0, v);
  }

  lemma EightBytes(v: nat)
    ensures BigEndian(8, v) == Eight(v)
  {
    LastFour(4, v);
    FourBytes(v / 0x1_0000_0000);
  }

  lemma WithoutBrackets(a: seq<byte>, b: seq<byte>, c: seq<byte>, d: seq<byte>, e: seq<byte>)
    ensures (a + (b + (c + (d + [])))) + e == a + b + c + d + e
  {
    assert d + [] == d;
    assert b + (c + d) == b + c + d;
    assert a + (b + c + d) == a + b + c + d;
  }

  /** The signed bytes: name, caller, alias or nothing, and issuer, each after its length in four bytes,
      and then the time in eight, most significant byte first throughout. */
  lemma SignedBytesLayout(c: Claims)
    ensures
      var name, caller, issuer := Utf8.Bytes(c.name), Utf8.Bytes(c.caller), Utf8.Bytes(c.issuer);
      var alias := if c.alias.Some? then Utf8.Bytes(c.alias.value) else [];
      SignedBytes(c) == Four(|name|) + name + Four(|caller|) + caller + Four(|alias|) + alias
                        + Four(|issuer|) + issuer + Eight(c.validUntil)
  {
    var f := Fields(c);
    assert f == [f[0], f[1], f[2], f[3]];
    ThreeMore(f[0], f[1], f[2], f[3]);
    WithoutBrackets(Framed(f[0]), Framed(f[1]), Framed(f[2]), Framed(f[3]), BigEndian(TIME_BYTES, c.validUntil));
    FourByteLengths(f[0], f[1], f[2], f[3]);
    EightBytes(c.validUntil);
  }

  lemma FourByteLengths(a: seq<byte>, b: seq<byte>, c: seq<byte>, d: seq<byte>)
    ensures Framed(a) + Framed(b) + Framed(c) + Framed(d)
            == Four(|a|) + a + Four(|b|) + b + Four(|c|) + c + Four(|d|) + d
  {
    FourBytes(|a|);
    FourBytes(|b|);
    FourBytes(|c|);
    FourBytes(|d|);
    OneMore(Four(|a|) + a, Four(|b|), b);
    OneMore(Four(|a|) + a + Four(|b|) + b, Four(|c|), c);
    OneMore(Four(|a|) + a + Four(|b|) + b + Four(|c|) + c, Four(|d|), d);
  }

  lemma OneMore(before: seq<byte>, length: seq<byte>, field: seq<byte>)
    ensures before + (length + field) == before + length + field
  {
  }

  /** Beyond 32-bit lengths the promise fails: a name of 2^32 NULs and a caller of 2^32
      NULs sign the same bytes. */
  lemma OverlongFieldsCollide(validUntil: u64)
    ensures
      var nuls := seq(U32_LIMIT, i => '\0');
      var a := Claims(nuls, "", None, validUntil, "");
      var b := Claims("", nuls, None, validUntil, "");
      SignedBytes(a) == SignedBytes(b) && !SameClaims(a, b)
  {
    var nuls := seq(U32_LIMIT, i => '\0');
    var z := Utf8.Bytes(nuls);
    NulBytes(nuls);
    var cut := BigEndian(4, U32_LIMIT);
    CutLength();
    var none := BigEndian(4, 0);
    assert Framed(z) == none + z && Framed([]) == none + [] == none;
    assert none + z == z + none;
    var tail := Framed([]) + (Framed([]) + []);
    assert FramedAll([z, [], [], []]) == Framed(z) + (Framed([]) + tail) by {
      ThreeMore(z, [], [], []);
    }
    assert FramedAll([[], z, [], []]) == Framed([]) + (Framed(z) + tail) by {
      ThreeMore([], z, [], []);
    }
    assert (none + z) + (none + tail) == none + ((z + none) + tail);
    assert Utf8.Bytes("") == [];
    assert nuls[0] == '\0' && |nuls| == U32_LIMIT;
  }

  lemma ThreeMore(a: seq<byte>, b: seq<byte>, c: seq<byte>, d: seq<byte>)
    ensures FramedAll([a, b, c, d]) == Framed(a) + (Framed(b) + (Framed(c) + (Framed(d) + [])))
  {
    assert [a, b, c, d][1..] == [b, c, d] && [b, c, d][1..] == [c, d] && [c, d][1..] == [d];
    assert FramedAll([d]) == Framed(d) + [];
    assert FramedAll([c, d]) == Framed(c) + FramedAll([d]);
    assert FramedAll([b, c, d]) == Framed(b) + FramedAll([c, d]);
  }

  lemma CutLength()
    ensures BigEndian(4, U32_LIMIT) == BigEndian(4, 0)
  {
    assert BigEndian(1, 256) == [0] && BigEndian(1, 0) == [0] by {
      assert BigEndian(0, 1) == [] && BigEndian(0, 0) == [];
    }
    assert BigEndian(2, 0x1_0000) == BigEndian(2, 0);
    assert BigEndian(3, 0x100_0000) == BigEndian(3, 0);
  }

  lemma {:induction false} NulBytes(nuls: string)
    requires forall i :: 0 <= i < |nuls| ==> nuls[i] == '\0'
    ensures |Utf8.Bytes(nuls)| == |nuls|
    ensures forall i :: 0 <= i < |nuls| ==> Utf8.Bytes(nuls)[i] == 0
  {
    if nuls != "" {
      NulBytes(nuls[1..]);
    }
  }

  // -- mint and verify ---------------------------------------------------------------------

  function Seal(scheme: Scheme, claims: Claims): Ticket {
    Ticket(claims, Base64Url.Encode(scheme.sign(claims.issuer, SignedBytes(claims))))
  }

  /** A ticket for `caller` to reach `name`, minted at `now` and good for `lifetime` seconds. */
  function Mint(scheme: Scheme, issuer: Id, name: string, caller: Id, alias: Option<string>,
                now: nat, lifetime: nat): Ticket
    requires now + lifetime < U64_LIMIT
  {
    Seal(scheme, Claims(name, caller, alias, now + lifetime, issuer))
  }

  datatype Refusal =
    | NotOurParent
    | NotTheCaller
    | Expired
    | BadIssuer
    | UnreadableSignature
    | WrongSignatureLength
    | DoesNotVerify

  /** Check a ticket presented by `caller` to a device whose parent is one of `parents`.
      Nothing returned means accepted. */
  function Verify(ok: Id -> bool, scheme: Scheme, ticket: Ticket, caller: Id, parents: seq<Id>, now: nat)
    : Option<Refusal>
  {
    if ticket.claims.issuer !in parents then Some(NotOurParent)
    else if caller != ticket.claims.caller then Some(NotTheCaller)
    else if now > ticket.claims.validUntil then Some(Expired)
    else if !ok(ticket.claims.issuer) then Some(BadIssuer)
    else
      match Base64Url.Decode(ticket.signature)
      case None => Some(UnreadableSignature)
      case Some(raw) =>
        if |raw| != SIGNATURE_LENGTH then Some(WrongSignatureLength)
        else if !scheme.verify(ticket.claims.issuer, SignedBytes(ticket.claims), raw) then Some(DoesNotVerify)
        else None
  }

  /** A refusal says what is wrong. */
  lemma RefusalIsTrue(ok: Id -> bool, scheme: Scheme, ticket: Ticket, caller: Id, parents: seq<Id>, now: nat)
    ensures
      var raw := Base64Url.Decode(ticket.signature);
      match Verify(ok, scheme, ticket, caller, parents, now)
      case None => true
      case Some(NotOurParent) => ticket.claims.issuer !in parents
      case Some(NotTheCaller) => caller != ticket.claims.caller
      case Some(Expired) => ticket.claims.validUntil < now
      case Some(BadIssuer) => !ok(ticket.claims.issuer)
      case Some(UnreadableSignature) => raw.None?
      case Some(WrongSignatureLength) => raw.Some? && |raw.value| != SIGNATURE_LENGTH
      case Some(DoesNotVerify) =>
        raw.Some? && !scheme.verify(ticket.claims.issuer, SignedBytes(ticket.claims), raw.value)
  {
  }

  lemma SealedTicketVerifies(ok: Id -> bool, scheme: Scheme, claims: Claims, presenter: Id, parents: seq<Id>, now: nat)
    requires scheme.Signs(claims) && ok(claims.issuer)
    ensures Verify(ok, scheme, Seal(scheme, claims), presenter, parents, now).None?
            <==> claims.issuer in parents && presenter == claims.caller && now <= claims.validUntil
  {
    var raw := scheme.sign(claims.issuer, SignedBytes(claims));
    Base64Url.DecodesExactlyTheEncoding(Seal(scheme, claims).signature, raw);
  }

  /** A minted ticket is accepted exactly from its caller, by children of its issuer, until
      its time is up. */
  lemma MintedTicketVerifies(ok: Id -> bool, scheme: Scheme, issuer: Id, name: string, caller: Id,
                             alias: Option<string>, minted: nat, lifetime: nat,
                             presenter: Id, parents: seq<Id>, now: nat)
    requires minted + lifetime < U64_LIMIT && ok(issuer)
    requires scheme.Signs(Claims(name, caller, alias, minted + lifetime, issuer))
    ensures
      Verify(ok, scheme, Mint(scheme, issuer, name, caller, alias, minted, lifetime), presenter, parents, now).None?
      <==> issuer in parents && presenter == caller && now <= minted + lifetime
  {
    SealedTicketVerifies(ok, scheme, Claims(name, caller, alias, minted + lifetime, issuer), presenter, parents, now);
  }

  /** The ticket is no forgery: if one of `issuers` is its issuer and its signature verifies,
      that issuer has signed these very bytes for some ticket that is among `signed`. */
  ghost predicate Unforged(scheme: Scheme, issuers: seq<Id>, ticket: Ticket, signed: set<Claims>) {
    match Base64Url.Decode(ticket.signature)
    case None => true
    case Some(raw) =>
      ticket.claims.issuer in issuers && scheme.verify(ticket.claims.issuer, SignedBytes(ticket.claims), raw) ==>
        exists c :: c in signed && c.issuer == ticket.claims.issuer && SignedBytes(c) == SignedBytes(ticket.claims)
  }

  /** What is signed is no forgery, whatever the scheme. */
  lemma SealedIsUnforged(scheme: Scheme, issuers: seq<Id>, claims: Claims, signed: set<Claims>)
    requires claims in signed
    ensures Unforged(scheme, issuers, Seal(scheme, claims), signed)
  {
    assert Seal(scheme, claims).claims == claims;
  }

  /** A scheme can have both halves: whatever has been signed, there is one in which all of it
      verifies and no ticket at all is a forgery. */
  lemma IdealScheme(signed: set<Claims>) returns (scheme: Scheme)
    ensures forall c :: c in signed ==> scheme.Signs(c)
    ensures forall issuers: seq<Id>, ticket: Ticket :: Unforged(scheme, issuers, ticket, signed)
  {
    scheme := Scheme(
      (id, m) => seq(SIGNATURE_LENGTH, i => 0),
      (id, m, s) => exists c :: c in signed && c.issuer == id && SignedBytes(c) == m);
    forall c | c in signed ensures scheme.Signs(c) {
      assert scheme.verify(c.issuer, SignedBytes(c), seq(SIGNATURE_LENGTH, i => 0));
    }
  }

  /** A ticket a device accepts says what some ticket really minted by one of its parents
      says: it was neither forged nor altered, and is not being used by anyone else or late. */
  lemma VerifiedTicketWasMinted(ok: Id -> bool, scheme: Scheme, ticket: Ticket, caller: Id,
                                parents: seq<Id>, now: nat, signed: set<Claims>)
    requires Verify(ok, scheme, ticket, caller, parents, now).None?
    requires Unforged(scheme, parents, ticket, signed)
    requires Fits(ticket.claims) && forall c :: c in signed ==> Fits(c)
    ensures exists c :: c in signed && SameClaims(c, ticket.claims) && c.issuer in parents &&
              c.caller == caller && now <= c.validUntil
  {
    var raw := Base64Url.Decode(ticket.signature).value;
    assert scheme.verify(ticket.claims.issuer, SignedBytes(ticket.claims), raw);
    var c :| c in signed && c.issuer == ticket.claims.issuer && SignedBytes(c) == SignedBytes(ticket.claims);
    SignedBytesInjective(c, ticket.claims);
  }
}
