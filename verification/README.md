# A verified model of sirji

sirji gives a person a daemon of their own. Daemons pair by invite: one mints an identity for
the other and sends it, the other mints an identity of its own, dials with it and presents the
first. Devices enrol with their owner's daemon the same way. A device of one person reaches
`name@peer` by asking its own daemon, which asks the peer's daemon, which answers with the
device's key and a signed ticket that lets exactly one caller in for five minutes. Nobody holds
a directory of anybody, so what the system promises rests on what daemons that lose messages,
crash and restart remember about each other.

This project models that in Dafny and proves what it promises over every run, and where the code
falls short, exactly when it does. `dafny verify dfyconfig.toml` checks all of it.

## How it is laid out

- **Text and bytes.** `Radix` regroups bits. `Id52` is the base32hex text of a key (section 7 of
  RFC 4648), `Base64Url` its sibling (section 5), `Utf8` the bytes of a string, `Proto` the
  messages and the text of an invite. `Keystore` is the key directory, as a class.
- **One daemon.** `Network` is `network.toml`, its lookups and its check. `Commands` says, as
  functions, what each lock-held section does to memory, to the files write by write, and what
  it replies. `Effects` says the same of the result, field by field. `Daemon` is the class whose
  methods are those sections, held to both.
  `Draining` is the retiring of addresses, `Roster` the table of live devices, `Ticket` the
  sealed ticket. `Spelling` says what the check's text comparisons mean for keys.
- **Two daemons.** `Retry` has the loops of `accept`, of a device enrolling and of asking a peer,
  with any pattern of lost dials, hellos, replies and failed writes. `Admission` has the device:
  how it enrols, how it looks another up, and whom it lets in.
- **Any number of daemons.** `World` is a transition system: commands run to their end or are cut
  short after any of their writes, daemons crash and restart, messages are lost or arrive after
  their sender has given up or crashed, devices come and go, and anyone who is not one of the
  daemons may dial with any key of theirs, say anything, answer dials that reach them and make up
  invites. `Invariant` and `Preservation` hold what every reachable world satisfies; `Edges`,
  `Dialling`, `Connections`, `Liveness`, `Listening`, `Restart`, `Starting`, `Admission` and
  `Progress` draw the conclusions.

An `accept` is three things in the world, as it is in the code: it looks at the alias under the
lock and mints (`BeginAccept`), its hello is delivered any number of times or never (`Greet`),
and it takes the lock again to commit (`CommitAccept`). Anything may happen in between. The code
looks at the alias under one short lock and reads our addresses under a second; the model does both
at once. A new address in between is the same as one just before, and an alias claimed in between
the same as one just after. Only if the alias is claimed first and an address added then, both in
that interval, is there no order of the model's steps that comes to the same.

One thing is assumed of people, in the `BeginAccept` case of `World.Permitted`, and every theorem
about runs rests on it: a daemon that has made an invite is not itself handed another invite bearing
the identity that is about to accept the first (`World.Awaited`). Only the accepting daemon knows
that identity, and shows it to nobody but the inviter. Once the inviter has welcomed it, it stands
in two public files, and from then on anybody may put it into an invite for anybody; for any other
daemon they may all along. Without the assumption edges are not mirrored
(`Edges.AwaitedIsNotMirrored`).

Parameters stand for what lies outside. `ok` says which texts decode as an id52 and `curve` which
32 bytes are a curve point. `Scheme` is a signature as a pair of functions. That a signature
verifies is asked of the ticket at hand (`Signs`), and so is that it is no forgery: if it verifies
under a parent's key, that parent has signed those bytes (`Unforged`). Neither is asked of anything
else, and `Ticket.IdealScheme` shows that both can be had. `printer` and `parser` are JSON. `saves`
says whether the file system let a write through, `hints` is where an endpoint found itself
reachable, and keys minted in the world are fresh. The clock is one for everybody.

## Where the code is not what it says

- The check of a changed net comes after the change is in memory, and a refusal leaves it there.
  A caller whose addresses do not decode is refused, and on its next greeting is welcomed as known
  and written to the file without a check, after which the daemon cannot start
  (`Restart.RefusedPairingIsWrittenLater`, `Restart.RefusedCommitIsWrittenLater`). Over runs that is
  the only way: a daemon can start again at every point exactly if no greeting of a known caller and
  no new address is written out after such a refusal and before the daemon stops
  (`Starting.StartsUnlessSoiled`). What daemons send each other always decodes, so if what outsiders
  send does and no alias is claimed during an accept for it, daemons can always start
  (`Starting.AlwaysStarts`).
- An identity is to be shown to one peer. A pairing that cannot be written is refused, but is in
  memory, and a device's ask is then dialled to that peer as the invite's identity. If the daemon
  crashes before it is written, the invite is outstanding again, another peer can take it up, and
  is dialled with the same identity (`Dialling.LostPairingDialsTwo`). Short of that an identity is
  dialled toward one daemon only (`Dialling.DialledTowardOneUnlessLost`).
- A dialling key is to find its entry. Nothing checks it: an outsider can send two invites with one
  identity and both be accepted (`Restart.OneIdentityTwice`). Entries of any other making are found
  unless such an entry comes before (`Edges.KnownKeyFindsItsEntry`).
- Identities are compared as text, and a text in either case decodes: a file with one key in both
  cases passes the check (`Spelling.TwoCasesPass`, and exactly when in
  `Spelling.IdentitiesAreKeysIff`). Nor is it only case: a sharp s reads as two letters s
  (`Id52.SharpSIsAccepted`).
- No combination of field values is to sign as another ticket. Lengths are cut to 32 bits, so
  fields of 2^32 bytes can (`Ticket.OverlongFieldsCollide`); below that an absent and an empty
  alias are the only two that coincide (`Ticket.SignedBytesInjective`).
- Liveness is to be the connection. It is the last registration or departure of the name: a device
  that asks registers its name again, listening nowhere, and the end of the ask takes the name away
  although the registration is open (`Liveness.AskTakesTheNameAway`). The roster is right all along
  exactly if no registration of a name ends while another is open (`Liveness.RosterAgreesIff`).
- An address is in every invite from the moment it is added and is listened on only once the daemon
  has been started again (`Listening.DialledIffFiledAtStart`).
- Retrying works for a pairing and not for an enrolment, whose second hello is refused
  (`Retry.PairingSucceedsIff`, `Retry.EnrolmentSucceedsIff`).
- An invite for a device given to `accept` enrols the accepting daemon as that device
  (`Edges.AcceptedDeviceInviteEnrols`).

## Model

| member | source | states |
|---|---|---|
| Radix.RoundTrip | sirji/src/id52.rs:18-31 | regrouping bytes into symbols of up to eight bits and back gives the same bytes, for every length |
| Radix.Canonical | sirji/src/id52.rs:29-31 | symbols that decode are the encoding of what they decode to: the trailing bits must be zero |
| Radix.OrderPreserved | sirji/src/id52.rs:4-6 | byte strings of one length compare as their symbols do |
| Id52.EncodeThenDecode | sirji/src/id52.rs:17-36 | an id52 is 52 lower-case characters, and it and its upper-case form both read back as the key |
| Id52.DecodesExactlyTheSpellings | sirji/src/id52.rs:22-36 | a text decodes to a key exactly if the key is a point, the text is 52 bytes long in UTF-8, and its Unicode upper case is that of the key's id52 |
| Id52.DecodesEitherCase | sirji/src/id52.rs:27-31 | of ASCII texts, exactly the spellings of the id52 in either case |
| Id52.SharpSIsAccepted | sirji/src/id52.rs:24-31 | beyond ASCII there are others: an id52 with a sharp s for two letters s reads as the same key |
| Id52.EncodeInjective | sirji/src/id52.rs:17-20 | two keys never share an id52 |
| Id52.SameKeyIsSameUppercase | sirji/src/config.rs:208-226 | two accepted texts name one key exactly if they have one upper case; in ASCII, if they differ in case only |
| Spelling.IdentitiesAreKeysIff | sirji/src/config.rs:208-226 | the identities of a file that passes are distinct keys exactly if no two have one upper case |
| Spelling.TwoCasesPass | sirji/src/config.rs:208-226 | a file with one key in both cases passes the check |
| Spelling.MintedAreDistinctKeys | sirji/src/config.rs:208-226 | identities spelled as daemons spell them are distinct keys once the file passes |
| Id52.OrderIsByteOrder | sirji/src/id52.rs:4-6 | id52s sort in the same order as the underlying bytes |
| Id52.Alphabet | sirji/src/id52.rs:11-20 | the 32 symbols are the characters of base32hex in order |
| Base64Url.DecodesExactlyTheEncoding | sirji/src/proto.rs:248-259 | a text decodes to some bytes exactly if it is their encoding, whatever the length leaves over modulo three |
| Base64Url.Alphabet | sirji/src/proto.rs:248-259 | the 64 symbols are the characters of base64url in order |
| Proto.InviteSurvivesPasting | sirji/src/proto.rs:244-259 | an invite's text is free of blanks, and surrounded by any blanks decodes to the same invite |
| Utf8.BytesInjective | sirji/src/ticket.rs:55-58 | different strings have different bytes |
| Utf8.CodePoint | sirji/src/ticket.rs:55-58 | a character is the bytes of RFC 3629 that carry its code point, as few as will |
| Keystore.SortsByBytes | sirji/src/keystore.rs:104-129 | sorting by id52 leaves keys in the order of their bytes |
| Keystore.SortedOrderIsUnique | sirji/src/keystore.rs:104-129 | there is one such order, so the listing does not depend on the order the directory is read in |
| Keystore.NamedExactly | sirji/src/keystore.rs:111-126 | a key is listed exactly if a file with the key extension is named by a spelling of its id52 |
| Keystore.StoredIsNamed | sirji/src/keystore.rs:104-133 | a key whose file is in the directory, under the name it is filed under, is listed whenever anything is |
| Keystore.ListsUnlessMisnamed | sirji/src/keystore.rs:116-126 | the listing is refused exactly if some key file is not named after an id52 |
| Keystore.NamedAsOften | sirji/src/keystore.rs:111-126 | one key is listed for each key file, and each key as often as files spell it |
| Keystore.FiledOnce | sirji/src/keystore.rs:104-133 | in a directory of generated keys one file at most spells a key, so each is listed exactly once |
| Keystore.Keystore.Generate | sirji/src/keystore.rs:59-64 | the minted key can be loaded exactly if no file had its name yet or that file was already its secret; no file is changed or lost |
| Keystore.Keystore.Secret | sirji/src/keystore.rs:83-102 | whatever became of the files, a secret is returned exactly if the file is there, whole and belongs to the key asked for; the other errors say which |
| Keystore.Keystore.List | sirji/src/keystore.rs:104-129 | exactly the keys named, sorted by bytes, as many as there are key files and each as often as files spell it, every key generated into the directory among them; or a refusal exactly if some key file is misnamed |
| Network.Position | sirji/src/config.rs:145-188 | a lookup finds the first entry that fits, and none exactly if none fits |
| Network.AdvertisedInOrder | sirji/src/config.rs:136-143 | the keys not retired, in the order of the file and each once, so the first of them comes first |
| Network.Check | sirji/src/config.rs:199-261 | the one pass accepts exactly the files in which every key decodes, aliases, identities and names are pairwise distinct and every last arrival is on an alias of ours; a refusal names a fault really there |
| Network.ValidIffFaultless | sirji/src/config.rs:199-261 | a file is usable exactly if it exhibits none of the ten faults |
| Network.CheckPeers | sirji/src/config.rs:208-244 | the same for the peer entries, against a set of aliases and a map from identity to alias |
| Network.CheckWhereabouts | sirji/src/config.rs:227-243 | the same for one entry's counterpart, addresses and last arrival |
| Network.CheckDevices | sirji/src/config.rs:246-259 | the same for the devices |
| Ticket.BuildSignedBytes | sirji/src/ticket.rs:53-61 | the appended bytes are the four length-prefixed fields and the time |
| Ticket.SignedBytesLayout | sirji/src/ticket.rs:53-61 | name, caller, alias or nothing, issuer, each after its length in four bytes, and then the time in eight, most significant byte first |
| Ticket.SignedBytesInjective | sirji/src/ticket.rs:49-61 | for fields below 2^32 bytes, the bytes agree exactly if the claims do, no alias being the empty one |
| Ticket.OverlongFieldsCollide | sirji/src/ticket.rs:55-57 | at 2^32 bytes two different tickets sign the same |
| Ticket.MintedTicketVerifies | sirji/src/ticket.rs:72-152 | a minted ticket whose signature is sound is accepted exactly from its caller, by children of its issuer, until its time is up |
| Ticket.RefusalIsTrue | sirji/src/ticket.rs:102-152 | when a ticket is refused, what the refusal says is wrong with it is wrong with it |
| Ticket.VerifiedTicketWasMinted | sirji/src/ticket.rs:102-152 | an accepted ticket that is no forgery says what a parent really signed, for this caller and in time: it is neither altered nor lent |
| Ticket.SealedIsUnforged | sirji/src/ticket.rs:84-99 | what an issuer sealed is no forgery, whatever the scheme |
| Ticket.IdealScheme | sirji/src/ticket.rs:72-152 | whatever has been signed, there is a scheme in which all of it verifies and no ticket at all is a forgery |
| Commands.GreetingTouchesOneEntry | sirji/src/daemon.rs:237-308 | a known caller changes only where it arrived; an invited one only the waiting entry its invite was made for, to exactly these values |
| Commands.KnownIsWelcomed | sirji/src/daemon.rs:240-248 | a known caller is welcomed whatever it says, and the net written unchecked |
| Effects.WelcomedByAlias | sirji/src/daemon.rs:240-300 | the alias a caller is greeted by: that of the first entry that holds its key, else that of the invite it answers |
| Effects.GreetEffect | sirji/src/daemon.rs:237-308 | a greeting leaves our addresses and dns, which a welcome repeats, and a welcome is what the file says |
| Commands.CommandGrows | sirji/src/daemon.rs:237-308 | under every command, failed ones included, entries only grow and evolve one way |
| Commands.CommandBrings | sirji/src/daemon.rs:532-697 | the only key of ours a command can add to the net is the one it minted or, at a commit, the one its accept minted |
| Commands.StoppedSave | sirji/src/config.rs:125-134 | a save stopped after any write leaves the old file or the new one whole |
| Commands.CrashPoints | DESIGN.md:490-496 | a command stopped after any write leaves the old file or the new one, and any key the new file names has its key file first; a reply goes out only after the file says so |
| Daemon.Daemon.Start | sirji/src/daemon.rs:45-77 | starts exactly if the file is usable, every handshake secret, retired ones too, can be loaded and there is one; then every key of the file, retired ones too, is bound under its alias, the memory is the file and nobody is connected |
| Daemon.Daemon.Save | sirji/src/config.rs:125-134 | the disk is left as by the writes of a save, whole or cut short |
| Daemon.Daemon.CheckAndSave | sirji/src/daemon.rs:297-298 | saves exactly if the changed net is valid and can be written |
| Daemon.Daemon.NewAddress | sirji/src/daemon.rs:532-547 | refused and nothing changed if the alias is taken; otherwise the key is in memory under the alias and advertised after the others, and answered exactly if written |
| Daemon.Daemon.MakeInvite | sirji/src/daemon.rs:549-577 | refused and nothing changed if the alias is taken; otherwise one entry waits under it, and an invite naming the minted key, our addresses, our dns and our hints goes out exactly if the check passes and the file is written |
| Daemon.Daemon.MakeDeviceInvite | sirji/src/daemon.rs:579-601 | the same for a device waiting under its name |
| Daemon.Daemon.BeginAccept | sirji/src/daemon.rs:626-648 | changes no net and writes no network file: refused if the alias is taken, otherwise the key is minted and the hello answers the invite with our addresses, dns and hints |
| Daemon.Daemon.CommitAccept | sirji/src/daemon.rs:670-686 | memory gains one entry: the invite's identity as counterpart, the minted key as ours, addresses and dns from the welcome, hints from the invite, no arrival; it is on disk, found under its alias and answered exactly if the check passes and the file is written |
| Effects.CommitEffect | sirji/src/daemon.rs:670-686 | the same of the command, whether or not it is written |
| Effects.NewAddressEffect | sirji/src/daemon.rs:532-547 | a new address is advertised after the others and found under its alias |
| Effects.MakeInviteEffect | sirji/src/daemon.rs:549-577 | what an invite leaves and says |
| Effects.MakeDeviceInviteEffect | sirji/src/daemon.rs:579-601 | what a device invite leaves and says |
| Daemon.Daemon.Greet | sirji/src/daemon.rs:237-308 | memory, disk and reply are the command's for every caller and hello |
| Daemon.Daemon.Register | sirji/src/daemon.rs:177-197 | a known device's name becomes live at its hints and nothing else changes: the state the world's step takes |
| Daemon.Daemon.Depart | sirji/src/daemon.rs:204-206 | the end of a registration takes the name away whoever else has claimed it: the state the world's step takes |
| Daemon.Daemon.Locate | sirji/src/daemon.rs:397-438 | answers exactly if the device has enrolled, is live, we can sign and the caller is a key: with its key, its hints and a ticket for that caller, under the alias given, for five minutes, signed with our first address |
| Effects.ToldIff | sirji/src/daemon.rs:344-438 | who asking for what is told, exactly when, and every field of the ticket |
| Invariant.SpentOnce | sirji/src/daemon.rs:280-284 | in one world, an identity was welcomed for one dialling key only |
| Invariant.CommandKeepsTidy | sirji/src/daemon.rs:237-308 | a permitted command, whatever its outcome, keeps everything the invariant says of a net |
| Preservation.StepKeepsInv | sirji/src/daemon.rs:237-308 | every step of the world keeps the invariant |
| Preservation.RunsKeepInv | sirji/src/daemon.rs:25-41 | every world of every run satisfies it |
| Edges.FilesGrow | sirji/src/config.rs:163-180 | across crashes and restarts a file only grows: no alias, identity or name changes, a counterpart once recorded stays, a device's one key stays |
| Edges.MemoryGrows | sirji/src/config.rs:163-180 | so does memory while the daemon lives |
| Edges.MirroredEdges | sirji/src/daemon.rs:624-698 | in every reachable world, whenever a daemon holds, in memory or on disk, an entry under an identity minted to accept a daemon's peer invite, the inviter holds the mirror entry in memory and on disk |
| Edges.EntryIsMirrored | sirji/src/daemon.rs:624-698 | the same of one world, for invites of either kind |
| Edges.MirroredBeforeCommit | sirji/src/daemon.rs:670-686 | the mirror is there before the accept commits, even if a crash cuts the commit short, and from there on |
| Edges.AwaitedIsNotMirrored | sirji/src/daemon.rs:240-248 | once some entry holds an identity, whoever dials with it is welcomed as known and its invite stays without a mirror: why the world must not hand the inviter such an entry first |
| Edges.AcceptedDeviceInviteEnrols | sirji/src/daemon.rs:258-278 | whenever a daemon holds an entry under an identity minted to accept a device invite, the inviter holds that device under that identity, in memory and on disk |
| Edges.WelcomedOnce | sirji/src/daemon.rs:280-284 | over a run, restarts included, all welcomes under one identity go to one dialling key |
| Edges.OneIdentityPerRelationship | sirji/src/config.rs:57-58 | an identity is `mine` in one entry of one daemon at most, and nobody's address |
| Dialling.DialsOneDaemon | sirji/src/daemon.rs:378-389 | in one world, who dials a daemon with an identity minted to accept dials the inviter; with one minted for an invite, the daemon whose identity took it up |
| Dialling.PendingDialsNowhere | sirji/src/daemon.rs:556-565 | an invite that has not been taken up gives no address to dial |
| Dialling.InvitingDials | sirji/src/daemon.rs:368-389 | an identity minted for an invite is dialled with exactly where the entry of whoever took it up says |
| Dialling.DialledTowardOneIff | sirji/src/config.rs:57-58 | over a run, an identity minted for an invite is dialled toward one daemon only exactly if one daemon only takes it up in memory |
| Dialling.TwoCounterpartsMeanALoss | sirji/src/daemon.rs:292-298 | two counterparts under one identity mean the first was lost: the daemon stopped while its file did not have it |
| Dialling.DialledTowardOneUnlessLost | sirji/src/daemon.rs:292-298 | over a run, it is dialled toward one daemon only exactly if no pairing with one daemon is lost in a crash before another takes the invite up |
| Dialling.LostPairingDialsTwo | sirji/src/daemon.rs:292-298 | an unwritten pairing, a crash and a restart, and a second daemon is dialled with the identity the first was |
| Dialling.InvitingSeenByOneDaemon | sirji/src/config.rs:57-58 | when it is dialled toward one daemon only, only one daemon is ever greeted with it, greetings cut short included |
| Dialling.SeenByOneDaemon | sirji/src/daemon.rs:650-652 | over a run, only the inviting daemon is ever greeted with an identity minted to accept its invite, greetings cut short included |
| Edges.SharedCounterpartIsForged | sirji/src/config.rs:153-157 | two entries hold one counterpart only if one was made by accepting an invite no daemon made |
| Edges.KnownKeyFindsItsEntry | sirji/src/config.rs:153-157 | a key finds an entry of any other making exactly if the entry holds it and no entry made from such an invite and holding it comes before |
| Edges.KnownIsAFunction | sirji/src/config.rs:153-157 | when only daemons' invites are accepted, an entry holds a key exactly if looking the key up finds that entry, though no check tests it |
| Restart.OneIdentityTwice | sirji/src/daemon.rs:672-686 | two invites with one identity are both accepted and pass the check, and the identity finds the first |
| Connections.StepKeepsConnInv | sirji/src/daemon.rs:166-226 | every step keeps what ties roster, connections and entries together |
| Connections.RunsKeepConnInv | sirji/src/daemon.rs:166-226 | every world of every run satisfies it |
| Connections.RosterIsSafe | sirji/src/daemon.rs:183-212 | a live name's newest registration is open, and the stored hints are the ones it gave |
| Connections.ResolutionIsCoherent | sirji/src/daemon.rs:401-438 | the key and hints handed out belong together: given on an open connection authenticated by that key |
| Connections.AliasHasProvenance | sirji/src/daemon.rs:344-364 | a ticket's alias is the entry or device of the key that dialled; without one, the ticket is for that key, a device of ours |
| Roster.LiveIsLastRegistered | sirji/src/daemon.rs:196-206 | a name is live exactly if its last event is a registration, whose hints it has and whose connection is open |
| Roster.AgreesThroughoutIff | sirji/src/daemon.rs:196-206 | live and open agree all along exactly if no registration of a name ends while another is open |
| Roster.LiveIsOpen | sirji/src/daemon.rs:196-206 | they agree whenever registrations of a name never overlap |
| Roster.OverlapLosesTheDevice | sirji/src/daemon.rs:757-760 | an ask over a registration makes the device listen nowhere, and whichever ends first takes the name away from the other |
| Liveness.EventsAccount | sirji/src/daemon.rs:183-212 | in every world of every run, what registered and departed at a daemon since it started accounts for its roster and its open registrations |
| Liveness.StepAgreesIff | sirji/src/daemon.rs:196-206 | a step leaves a right roster right exactly unless it ends one registration of a name while another is open |
| Liveness.RosterAgreesIff | sirji/src/daemon.rs:196-206 | over every run, a daemon's roster is all along the names with an open registration exactly if no such step happens |
| Liveness.NoOverlapAgrees | sirji/src/daemon.rs:183-212 | over every run in which registrations of a name never overlap, it is |
| Liveness.AskTakesTheNameAway | sirji/src/daemon.rs:757-760 | three steps of the world: a device registers, asks, and when the ask ends it is not found though its registration is open |
| Listening.BoundSinceStart | sirji/src/daemon.rs:54-65 | over every run, from a start to the stop that follows a daemon listens on exactly the keys its file named at the start, retired ones too, each under its alias |
| Listening.DialledIffFiledAtStart | sirji/src/daemon.rs:532-547 | so an address can be dialled exactly if the file named it at the start: all then advertised can, one added since cannot |
| Listening.AliasNamesOneKey | sirji/src/daemon.rs:533-536 | in every reachable memory and file an alias of ours names one key, though no check tests it |
| Listening.FreshHomeListens | sirji/src/daemon.rs:958-978 | a fresh home can be started from, and listens on and advertises its one key |
| Restart.PairingValidIff | sirji/src/daemon.rs:292-298 | taking up an invite passes the check exactly if what the caller sent decodes and it arrived on an address of ours |
| Restart.EnrolmentValidIff | sirji/src/daemon.rs:267-270 | an enrolment passes exactly if the device's key decodes |
| Restart.KnownGreetingValidIff | sirji/src/daemon.rs:241-247 | the unchecked save of a known greeting is of a valid net exactly if the address noted is ours |
| Restart.PeerAddedValidIff | sirji/src/daemon.rs:672-684 | an entry can be added exactly if its alias and identity are new and its parts decode |
| Restart.CommandValidIff | sirji/src/daemon.rs:493-622 | from a valid net, exactly which commands leave a valid net, whether or not they check |
| Restart.RefusedPairingIsWrittenLater | sirji/src/daemon.rs:241-297 | a pairing refused because an address does not decode is written unchecked at the caller's next greeting, and the daemon cannot start |
| Restart.RefusedCommitIsWrittenLater | sirji/src/daemon.rs:672-684 | so is an accept whose alias was claimed meanwhile, at the next new address |
| Starting.FileLeft | sirji/src/config.rs:125-134 | stopped after any number of its writes, a command has changed the file exactly if it saves, passes the check or skips it, may write, and was not cut short; then the file is the changed net |
| Starting.FaultsOfRuns | sirji/src/config.rs:199-261 | in every reachable world, of the ten faults the check looks for only three can be in a memory or a file: a shared alias, a counterpart or an address that does not decode |
| Starting.AcceptableIff | sirji/src/daemon.rs:237-308 | exactly which commands of a world leave a valid memory valid: all but a pairing whose addresses do not decode, and an accept whose alias was claimed or whose invite or welcome does not decode |
| Starting.FitUnlessSoiled | sirji/src/daemon.rs:292-298 | over every run, the memory of a running daemon passes the check exactly if every command it ran since it last started was acceptable |
| Starting.StartsIff | sirji/src/daemon.rs:45-77 | over every run, a daemon can start at every point, inside a command or between two, exactly if no step wrote a memory that would not pass the check without checking it |
| Starting.StartsUnlessSoiled | sirji/src/daemon.rs:241-247 | the same by events alone: exactly if no known greeting or new address was written out after a command that was not acceptable and before the daemon stopped |
| Starting.AlwaysStarts | sirji/src/daemon.rs:45-77 | so when what outsiders send decodes and no alias is claimed during an accept for it: then every key the file names as its own has its key file, too |
| Progress.PairingCompletes | sirji/src/daemon.rs:624-698 | from any usable world an outstanding invite can be taken up by any daemon: three permitted steps, accepted, and both files mirrored |
| Progress.EnrolmentCompletes | sirji/src/daemon.rs:257-278 | from any usable world an outstanding device invite can be taken up by a device with a new key: one greeting enrols it in memory and on disk, one connection makes it live, and an ask for its name finds that key and its hints |
| Retry.Accept | sirji/src/daemon.rs:626-697 | the whole accept against an inviter: what both have in memory and on disk and the reply, for any pattern of losses; accepted, the entry has the inviter's addresses and dns and the invite's hints |
| Retry.Commit | sirji/src/daemon.rs:670-686 | the file holds the new entry exactly if the accept is answered accepted, which is exactly if it passes the check and can be written; its dns is the welcome's and its hints the invite's |
| Retry.GreetParent | sirji/src/daemon.rs:881-912 | an enrolling device stops at the first reply, welcome or not |
| Retry.FirstReplyEnds | sirji/src/daemon.rs:900-905 | what comes after the first reply is never tried |
| Retry.EnrolledByTries | sirji/src/daemon.rs:881-912 | a device that hears it is welcome has been enrolled under the name it is told |
| Retry.AskPeer | sirji/src/daemon.rs:707-736 | a peer is asked at its addresses until one answers; a ticket it answers with is for the asking key, under the alias of the peer's entry that holds the key dialled with, and comes with the device's key and hints |
| Retry.WelcomedAsItsEntry | sirji/src/daemon.rs:219-248 | whoever greets as an established peer is welcomed by the alias of the entry that holds its key, or not at all, and changes nothing but where it arrived |
| Retry.UndecodableEnds | sirji/src/daemon.rs:653-654 | an address that does not decode ends a loop: nothing after it is tried |
| Retry.Answer | sirji/src/daemon.rs:344-395 | peers may ask for our devices, and are answered exactly if it can be found, under their alias; our devices for siblings, for their own key and under no alias; and, through us, for a peer's, under the alias the peer has for us and only if we can dial as the identity it knows us by; everyone else is denied |
| Retry.KnownIsWelcomedOnRoundTrip | sirji/src/daemon.rs:707-736 | a known caller gets through exactly if some attempt arrives, is written and gets back |
| Retry.PairingSucceedsIff | sirji/src/daemon.rs:653-696 | so does one taking up an invite, even if the reply that paired it was lost; the inviter's entry changes once and then only in where the caller arrived |
| Retry.StrangerIsRefused | sirji/src/daemon.rs:250-284 | a stranger gets nowhere and changes nothing, however often it tries |
| Retry.EnrolmentSucceedsIff | sirji/src/daemon.rs:257-284 | enrolling succeeds exactly if the first hello to arrive is also answered |
| Admission.Enrol | t-sirji-fs/src/main.rs:129-166 | a device keeps the name its parent gave it, the addresses of its invite and the key it dialled with, exactly if welcomed; the parent then finds under that key the device of that name |
| Admission.OutstandingAwaits | sirji/src/daemon.rs:257-278 | in every reachable world an outstanding device invite waits for one device, and for a key nobody has seen |
| Admission.Handle | t-sirji-fs/src/main.rs:242-289 | a knock is let in exactly with a ticket for this device that verifies; a refusal says what is wrong |
| Admission.TicketsWereGranted | sirji/src/daemon.rs:401-438 | every ticket ever signed answered an earlier ask on a greeted connection |
| Admission.AdmittedWasGranted | t-sirji-fs/src/main.rs:242-289 | whoever is let in with an unforged ticket was granted this device by a daemon at a parent address, at most five minutes ago, while it was live |
| Admission.SignsWithAnInvitedAddress | sirji/src/daemon.rs:424-432 | the address a daemon signs with is in every invite it ever made, so every device of its knows it as a parent |
| Admission.MirroredInMemory | sirji/src/daemon.rs:624-698 | so the inviter knows the identity under which a device's ask is dialled |
| Admission.DialledAskIsAdmitted | sirji/src/daemon.rs:401-437 | in the world: the dial for a device is let through, and asking on its connection gets claims which, sealed, the device admits |
| Admission.AskedForIsAnswered | sirji/src/daemon.rs:366-394 | over any losses that let one attempt through and back, a known identity is told the device's key, hints and a ticket for the asking key |
| Admission.EnrolledIsHeld | t-sirji-fs/src/main.rs:129-166 | what a device keeps of its enrolment is the key it dialled with, the invite's name and addresses, and from then on its parent has that key, and no other, under that name |
| Admission.ResolvedIsAdmitted | sirji/src/daemon.rs:366-437 | in any world of any run: what a device connected to its daemon is told when it asks for a device enrolled at a peer that knows that daemon is the key that device enrolled with, its hints, and a ticket for the asking device's own key, under the alias of the peer's entry for that daemon, with which, by what it kept of its enrolment, it admits the asker exactly until five minutes are up |
| Admission.Visit | t-sirji-fs/src/main.rs:382-446 | a device that looks another up and knocks gets the verdict of that device on what its parent told it |
| Draining.ReachedOnIsLatest | sirji/src/daemon.rs:850-856 | after any arrivals every entry says where its peer arrived last |
| Draining.DrainedAgreesWithHistory | sirji/src/config.rs:263-275 | the drained keys are exactly the retired ones whose alias is no peer's latest arrival |
| Draining.UnbindingDrainedIsSafe | sirji/src/config.rs:263-275 | without them, even if aliases repeat, a valid file stays valid and advertises the same addresses |
| Draining.RemovableIff | sirji/src/config.rs:235-243 | keys can be dropped from a valid file exactly if each alias a peer last arrived on still names one |

## Left out

- Preservation.RunsKeepInv: and so every theorem about runs takes it that no daemon is handed an invite bearing an identity that is about to accept its own (`World.Awaited`, above). In the code nothing stops its user from pasting one, who would have had to learn the identity first.
- Dialling.SeenByOneDaemon: an identity minted to accept an invite an outsider made up may be dialled anywhere that invite says.
- Dialling.DialledTowardOneUnlessLost: speaks of relationships with daemons. An outsider that takes an invite up may name any addresses it likes as its own.
- Admission.AdmittedWasGranted: fields below 2^32 bytes, times below 2^64 seconds, and one clock for issuer and device.
- Admission.ResolvedIsAdmitted: the peer is another daemon than the device's own, and is where one of the entry's addresses says.
- Retry.PairingSucceedsIff: every address in the invite decodes; one that does not ends the loop, as in `Retry.Accept`.
- Id52.DecodesExactlyTheSpellings: of the characters beyond ASCII only the ten whose upper case is ASCII are upper-cased; any other spells no id52 with or without it.
- Keys of one daemon as a set of ids: `Daemon` abstracts the key directory to the ids whose file is in place; `Keystore` has the files.
- Ed25519, curve points, randomness: parameters, and freshness of minted keys. A dialling key is authenticated by the transport, so it decodes.
- JSON, TOML and the reading of lines: messages are values; a hello or ask that does not parse is refused by the code and changes nothing. The loop of `serve_asks` over lines is a sequence of asks.
- iroh, QUIC, relays, hints against discovery, timeouts: a dial arrives or does not.
- Addresses in another spelling: the world lets a hello reach the addresses an invite names letter by letter. An invite that spells a daemon's address in upper case reaches it in the code.
- A peer's hello still under way when its daemon stops: the world delivers the hello of an accept whatever became of its sender, that of an established relationship only while the sender runs.
- Retiring a key and editing `network.toml` by hand: the world starts from `init` and does neither; `Draining` and the check cover retired keys.
- The interval between a device being recognised and being put into the roster, which the code crosses without a lock: one step.
- Addresses in the welcome a known peer gets: the code discards them, so nothing is said about peers following a change of addresses.
- File permissions, sockets, the command line, status and listing commands, doctor, settings, and what a device serves once it has let a caller in.
