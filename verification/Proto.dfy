/** What sirjis say to each other, and the text form of an invite. */
module Proto {
  import opened Wrappers
  import opened Radix
  import Base64Url

  type Id = string

  datatype Hello =
    | PeerHello
    | DeviceHello(hints: seq<string>)
    | Invited(invitedTo: Id, addresses: seq<Id>, dns: seq<string>, hints: seq<string>)

  datatype Welcome =
    | Ok(alias: string, addresses: seq<Id>, dns: seq<string>)
    | No

  datatype Invite = Invite(addresses: seq<Id>, dns: seq<string>, identity: Id, hints: seq<string>)

  // -- an invite as text -------------------------------------------------------------

  /** Unicode `White_Space`. */
  predicate IsWhitespace(c: char) {
    var u := c as int;
    || 9 <= u <= 13 || u == 32 || u == 0x85 || u == 0xA0 || u == 0x1680
    || 0x2000 <= u <= 0x200A || u == 0x2028 || u == 0x2029 || u == 0x202F
    || u == 0x205F || u == 0x3000
  }

  predicate Blank(s: string) {
    forall i :: 0 <= i < |s| ==> IsWhitespace(s[i])
  }

  function TrimStart(s: string): string {
    if s != "" && IsWhitespace(s[0]) then TrimStart(s[1..]) else s
  }

  function TrimEnd(s: string): string {
    if s != "" && IsWhitespace(s[|s| - 1]) then TrimEnd(s[..|s| - 1]) else s
  }

  function Trim(s: string): string {
    TrimEnd(TrimStart(s))
  }

  /** `printer` stands for the JSON printer. */
  function EncodeInvite(printer: Invite -> seq<byte>, invite: Invite): string {
    Base64Url.Encode(printer(invite))
  }

  /** `parser` stands for the JSON parser. */
  function DecodeInvite(parser: seq<byte> -> Option<Invite>, text: string): Option<Invite> {
    match Base64Url.Decode(Trim(text))
    case None => None
    case Some(bytes) => parser(bytes)
  }

  /** An invite survives a paste: whatever blanks end up around its text, and whatever
      the length of its JSON, the same invite comes back. The text is one line. */
  lemma InviteSurvivesPasting(printer: Invite -> seq<byte>, parser: seq<byte> -> Option<Invite>,
                              invite: Invite, before: string, after: string)
    requires parser(printer(invite)) == Some(invite)
    requires Blank(before) && Blank(after)
    ensures DecodeInvite(parser, before + EncodeInvite(printer, invite) + after) == Some(invite)
    ensures forall i :: 0 <= i < |EncodeInvite(printer, invite)| ==>
              !IsWhitespace(EncodeInvite(printer, invite)[i])
  {
    var text := EncodeInvite(printer, invite);
    Base64Url.DecodesExactlyTheEncoding(text, printer(invite));
    NoBlanksInside(text);
    TrimmedToTheText(before, text, after);
  }

  lemma NoBlanksInside(text: string)
    requires Base64Url.InAlphabet(text)
    ensures forall i :: 0 <= i < |text| ==> !IsWhitespace(text[i])
  {
    forall i | 0 <= i < |text| ensures !IsWhitespace(text[i]) {
      assert Base64Url.CharSymbol(text[i]).Some?;
    }
  }

  lemma TrimmedToTheText(before: string, text: string, after: string)
    requires Blank(before) && Blank(after)
    requires forall i :: 0 <= i < |text| ==> !IsWhitespace(text[i])
    ensures Trim(before + text + after) == text
  {
    TrimStartDropsBlanks(before, text + after);
    assert before + text + after == before + (text + after);
    if text == "" {
      assert text + after == after + "";
      TrimStartDropsBlanks(after, "");
    } else {
      assert (text + after)[0] == text[0];
      TrimEndDropsBlanks(text, after);
    }
  }

  lemma {:induction false} TrimStartDropsBlanks(blank: string, s: string)
    requires Blank(blank)
    ensures TrimStart(blank + s) == TrimStart(s)
  {
    if blank == "" {
      assert blank + s == s;
    } else {
      assert (blank + s)[1..] == blank[1..] + s;
      TrimStartDropsBlanks(blank[1..], s);
    }
  }

  lemma {:induction false} TrimEndDropsBlanks(s: string, blank: string)
    requires Blank(blank) && s != "" && !IsWhitespace(s[|s| - 1])
    ensures TrimEnd(s + blank) == s
  {
    if blank == "" {
      assert s + blank == s;
    } else {
      assert (s + blank)[..|s + blank| - 1] == s + blank[..|blank| - 1];
      TrimEndDropsBlanks(s, blank[..|blank| - 1]);
    }
  }
}
