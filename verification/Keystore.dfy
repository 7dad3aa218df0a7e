/** The key directory: one 32-byte file per key, named by the key's id52. */
module Keystore {
  import opened Wrappers
  import opened Radix
  import opened Id52

  type SecretKey = secret: seq<byte> | |secret| == 32 witness Zeros32()

  const EXTENSION := ".private-key"

  function FileName(key: PublicKey): string {
    Id52.Encode(key) + EXTENSION
  }

  /** The part of a file name before the extension, if it has ours and something before it. */
  function Stem(name: string): (stem: Option<string>)
    ensures stem.Some? <==> |name| > |EXTENSION| && name[|name| - |EXTENSION|..] == EXTENSION
    ensures stem.Some? ==> stem.value + EXTENSION == name
  {
    if |name| > |EXTENSION| && name[|name| - |EXTENSION|..] == EXTENSION
    then Some(name[..|name| - |EXTENSION|]) else None
  }

  lemma StemOfFileName(key: PublicKey)
    ensures Stem(FileName(key)) == Some(Id52.Encode(key))
  {
    UpperOfEncode(key);
    var name := FileName(key);
    assert name[|name| - |EXTENSION|..] == EXTENSION;
    assert name[..|name| - |EXTENSION|] == Id52.Encode(key);
  }

  datatype KeyError = Missing | WrongSize | Misfiled

  // -- sorting ---------------------------------------------------------------------------

  ghost predicate Sorted(keys: seq<PublicKey>) {
    forall i, j :: 0 <= i < j < |keys| ==> !Less(keys[j], keys[i])
  }

  /** A key put before the first one whose id52 is greater. */
  function Place(key: PublicKey, keys: seq<PublicKey>): (placed: seq<PublicKey>)
    ensures multiset(placed) == multiset(keys) + multiset{key}
  {
    if keys == [] then [key]
    else if TextLess(Id52.Encode(key), Id52.Encode(keys[0])) then [key] + keys
    else
      assert keys == [keys[0]] + keys[1..];
      [keys[0]] + Place(key, keys[1..])
  }

  function SortById52(keys: seq<PublicKey>): (sorted: seq<PublicKey>)
    ensures multiset(sorted) == multiset(keys)
  {
    if keys == [] then [] else
      assert keys == keys[..|keys| - 1] + [keys[|keys| - 1]];
      Place(keys[|keys| - 1], SortById52(keys[..|keys| - 1]))
  }

  lemma {:induction false} LessTransitive(a: seq<nat>, b: seq<nat>, c: seq<nat>)
    requires !Less(b, a) && !Less(c, b) && |a| == |b| == |c|
    ensures !Less(c, a)
  {
    if a != [] && a[0] == b[0] == c[0] {
      LessTransitive(a[1..], b[1..], c[1..]);
    }
  }

  lemma {:induction false} LessTotal(a: seq<nat>, b: seq<nat>)
    requires !Less(b, a) && !Less(a, b) && |a| == |b|
    ensures a == b
  {
    if a != [] {
      LessTotal(a[1..], b[1..]);
    }
  }

  lemma {:induction false} LessAsymmetric(a: seq<nat>, b: seq<nat>)
    requires Less(a, b)
    ensures !Less(b, a)
  {
    if a != [] && a[0] == b[0] {
      LessAsymmetric(a[1..], b[1..]);
    }
  }

  lemma {:induction false} PlaceKeepsSorted(key: PublicKey, keys: seq<PublicKey>)
    requires Sorted(keys)
    ensures Sorted(Place(key, keys))
  {
    if keys != [] {
      OrderIsByteOrder(key, keys[0]);
      if Less(key, keys[0]) {
        LessAsymmetric(key, keys[0]);
        forall j | 0 <= j < |keys| ensures !Less(keys[j], key) {
          if j > 0 {
            LessTransitive(key, keys[0], keys[j]);
          }
        }
      } else {
        var rest := Place(key, keys[1..]);
        PlaceKeepsSorted(key, keys[1..]);
        forall j | 0 <= j < |rest| ensures !Less(rest[j], keys[0]) {
          assert rest[j] in multiset(rest);
          if rest[j] != key {
            assert rest[j] in keys[1..];
          }
        }
      }
    }
  }

  /** Sorting by id52 sorts by the bytes of the keys. */
  lemma {:induction false} SortsByBytes(keys: seq<PublicKey>)
    ensures Sorted(SortById52(keys))
  {
    if keys != [] {
      SortsByBytes(keys[..|keys| - 1]);
      PlaceKeepsSorted(keys[|keys| - 1], SortById52(keys[..|keys| - 1]));
    }
  }

  /** There is one sorted order, so what `list` returns does not depend on the order in which
      the directory is read. */
  lemma {:induction false} SortedOrderIsUnique(a: seq<PublicKey>, b: seq<PublicKey>)
    requires Sorted(a) && Sorted(b) && multiset(a) == multiset(b)
    ensures a == b
  {
    if a == [] {
      assert |b| == |multiset(b)| == 0;
    } else {
      assert |b| == |multiset(b)| == |multiset(a)| == |a|;
      FirstIsLeast(a, b);
      FirstIsLeast(b, a);
      LessTotal(a[0], b[0]);
      WithoutFirst(a);
      WithoutFirst(b);
      SortedOrderIsUnique(a[1..], b[1..]);
    }
  }

  lemma WithoutFirst(a: seq<PublicKey>)
    requires a != []
    ensures a == [a[0]] + a[1..] && multiset(a[1..]) == multiset(a) - multiset{a[0]}
  {
    assert a == [a[0]] + a[1..];
  }

  lemma FirstIsLeast(a: seq<PublicKey>, b: seq<PublicKey>)
    requires Sorted(a) && a != [] && b != [] && multiset(a) == multiset(b)
    ensures !Less(b[0], a[0])
  {
    assert b[0] in multiset(a);
    var i :| 0 <= i < |a| && a[i] == b[0];
    LessIrreflexive(a[0]);
  }

  // -- the directory ------------------------------------------------------------------------

  datatype Entry = NoKey | Misnamed | Named(key: PublicKey)

  /** What a file name is to the listing: not a key file, one not named after an id52, or the
      key it is named after. */
  function EntryOf(curve: seq<byte> -> bool, name: string): (entry: Entry)
    ensures entry.NoKey? <==> Stem(name).None?
    ensures forall key: PublicKey :: entry == Named(key) <==>
              Stem(name).Some? && Id52.Decode(curve, Stem(name).value) == Success(key)
  {
    match Stem(name)
    case None => NoKey
    case Some(stem) =>
      match Id52.Decode(curve, stem)
      case Failure(_) => Misnamed
      case Success(key) => Named(key)
  }

  /** The keys named by the entries that are key files, in the order of the entries. */
  function KeysNamed(curve: seq<byte> -> bool, entries: seq<string>): Option<seq<PublicKey>> {
    if entries == [] then Some([])
    else
      match KeysNamed(curve, entries[..|entries| - 1])
      case None => None
      case Some(keys) =>
        match EntryOf(curve, entries[|entries| - 1])
        case NoKey => Some(keys)
        case Misnamed => None
        case Named(key) => Some(keys + [key])
  }

  ghost predicate IsNamed(curve: seq<byte> -> bool, entries: seq<string>, key: PublicKey) {
    exists name :: name in entries && EntryOf(curve, name) == Named(key)
  }

  lemma NamedBeforeOrLast(curve: seq<byte> -> bool, before: seq<string>, last: string, key: PublicKey)
    ensures IsNamed(curve, before + [last], key) <==>
            IsNamed(curve, before, key) || EntryOf(curve, last) == Named(key)
  {
    var entries := before + [last];
    assert entries[|before|] == last;
    if IsNamed(curve, before, key) {
      var name :| name in before && EntryOf(curve, name) == Named(key);
      assert name in entries;
    }
  }

  /** A key is listed exactly if a key file is named by it. */
  lemma {:induction false} NamedExactly(curve: seq<byte> -> bool, entries: seq<string>, key: PublicKey)
    requires KeysNamed(curve, entries).Some?
    ensures key in KeysNamed(curve, entries).value <==> IsNamed(curve, entries, key)
  {
    if entries != [] {
      var before, last := entries[..|entries| - 1], entries[|entries| - 1];
      assert entries == before + [last];
      NamedExactly(curve, before, key);
      NamedBeforeOrLast(curve, before, last, key);
    }
  }

  /** A key whose file is there is listed, if anything is. */
  lemma StoredIsNamed(curve: seq<byte> -> bool, entries: seq<string>, key: PublicKey)
    requires curve(key) && FileName(key) in entries && KeysNamed(curve, entries).Some?
    ensures key in KeysNamed(curve, entries).value
  {
    StemOfFileName(key);
    EncodeThenDecode(curve, key);
    assert EntryOf(curve, FileName(key)) == Named(key);
    NamedExactly(curve, entries, key);
  }

  ghost function Those(names: set<string>, p: string -> bool): set<string> {
    set name | name in names && p(name)
  }

  /** The files with the extension of a key file. */
  ghost function KeyFiles(names: set<string>): set<string> {
    Those(names, name => Stem(name).Some?)
  }

  /** The files named by a spelling of this key. */
  ghost function FilesOf(curve: seq<byte> -> bool, names: set<string>, key: PublicKey): set<string> {
    Those(names, name => EntryOf(curve, name) == Named(key))
  }

  ghost function SetOf(entries: seq<string>): set<string> {
    set name | name in entries
  }

  ghost predicate Distinct(entries: seq<string>) {
    forall i, j :: 0 <= i < j < |entries| ==> entries[i] != entries[j]
  }

  lemma {:induction false} ReadOnce(entries: seq<string>, names: set<string>)
    requires multiset(entries) == multiset(names)
    ensures Distinct(entries) && SetOf(entries) == names
  {
    forall i, j | 0 <= i < j < |entries| ensures entries[i] != entries[j] {
      var rest := entries[..j] + entries[j + 1..];
      assert entries == entries[..j] + [entries[j]] + entries[j + 1..];
      assert multiset(entries) == multiset(rest) + multiset{entries[j]};
      assert rest[i] == entries[i];
      assert multiset(entries)[entries[j]] <= 1;
    }
    forall name ensures name in SetOf(entries) <==> name in names {
      assert name in entries <==> name in multiset(entries);
    }
  }

  /** One key for each key file, and each key as often as files spell it. */
  lemma {:induction false} NamedAsOften(curve: seq<byte> -> bool, entries: seq<string>, key: PublicKey)
    requires Distinct(entries) && KeysNamed(curve, entries).Some?
    ensures |KeysNamed(curve, entries).value| == |KeyFiles(SetOf(entries))|
    ensures multiset(KeysNamed(curve, entries).value)[key] == |FilesOf(curve, SetOf(entries), key)|
  {
    if entries == [] {
      assert KeyFiles(SetOf(entries)) == {} && FilesOf(curve, SetOf(entries), key) == {};
    } else {
      var before, last := entries[..|entries| - 1], entries[|entries| - 1];
      assert entries == before + [last];
      NamedAsOften(curve, before, key);
      NamedByLast(curve, before, last, key);
      OneMoreFile(curve, before, last, key);
    }
  }

  lemma NamedByLast(curve: seq<byte> -> bool, before: seq<string>, last: string, key: PublicKey)
    requires KeysNamed(curve, before + [last]).Some?
    ensures
      var keys := KeysNamed(curve, before + [last]).value;
      && KeysNamed(curve, before).Some?
      && |keys| == |KeysNamed(curve, before).value| + (if Stem(last).Some? then 1 else 0)
      && multiset(keys)[key]
         == multiset(KeysNamed(curve, before).value)[key] + if EntryOf(curve, last) == Named(key) then 1 else 0
  {
    assert (before + [last])[..|before + [last]| - 1] == before;
  }

  lemma OneMoreName(names: set<string>, last: string, p: string -> bool)
    requires last !in names
    ensures |Those(names + {last}, p)| == |Those(names, p)| + if p(last) then 1 else 0
  {
    assert Those(names + {last}, p) == Those(names, p) + if p(last) then {last} else {};
  }

  lemma OneMoreFile(curve: seq<byte> -> bool, before: seq<string>, last: string, key: PublicKey)
    requires last !in before
    ensures |KeyFiles(SetOf(before + [last]))| == |KeyFiles(SetOf(before))| + if Stem(last).Some? then 1 else 0
    ensures |FilesOf(curve, SetOf(before + [last]), key)|
            == |FilesOf(curve, SetOf(before), key)| + if EntryOf(curve, last) == Named(key) then 1 else 0
  {
    assert SetOf(before + [last]) == SetOf(before) + {last};
    OneMoreName(SetOf(before), last, name => Stem(name).Some?);
    OneMoreName(SetOf(before), last, name => EntryOf(curve, name) == Named(key));
  }

  /** Where every key file is called what the daemon calls it, one file at most spells a key. */
  lemma FiledOnce(curve: seq<byte> -> bool, names: set<string>, key: PublicKey)
    requires forall name :: name in names && Stem(name).Some? ==>
               exists k: PublicKey :: curve(k) && name == FileName(k)
    ensures FilesOf(curve, names, key) == if curve(key) && FileName(key) in names then {FileName(key)} else {}
  {
    forall name | name in FilesOf(curve, names, key) ensures curve(key) && name == FileName(key) {
      var k: PublicKey :| curve(k) && name == FileName(k);
      StemOfFileName(k);
      EncodeThenDecode(curve, k);
    }
    if curve(key) {
      StemOfFileName(key);
      EncodeThenDecode(curve, key);
      assert EntryOf(curve, FileName(key)) == Named(key);
    }
  }

  ghost predicate SomeMisnamed(curve: seq<byte> -> bool, entries: seq<string>) {
    exists name :: name in entries && EntryOf(curve, name).Misnamed?
  }

  lemma MisnamedBeforeOrLast(curve: seq<byte> -> bool, before: seq<string>, last: string)
    ensures SomeMisnamed(curve, before + [last]) <==>
            SomeMisnamed(curve, before) || EntryOf(curve, last).Misnamed?
  {
    var entries := before + [last];
    assert entries[|before|] == last;
    if SomeMisnamed(curve, before) {
      var name :| name in before && EntryOf(curve, name).Misnamed?;
      assert name in entries;
    }
  }

  /** A misnamed key file anywhere spoils the listing, and nothing else does. */
  lemma {:induction false} ListsUnlessMisnamed(curve: seq<byte> -> bool, entries: seq<string>)
    ensures KeysNamed(curve, entries).None? <==> SomeMisnamed(curve, entries)
  {
    if entries != [] {
      var before, last := entries[..|entries| - 1], entries[|entries| - 1];
      assert entries == before + [last];
      ListsUnlessMisnamed(curve, before);
      MisnamedBeforeOrLast(curve, before, last);
    }
  }

  class Keystore {
    /** The public half of a secret. */
    const public: SecretKey -> PublicKey
    const curve: seq<byte> -> bool

    /** What is in the directory: names and contents. */
    var files: map<string, seq<byte>>

    constructor At(public: SecretKey -> PublicKey, curve: seq<byte> -> bool)
      ensures files == map[] && this.public == public && this.curve == curve
    {
      this.public, this.curve, files := public, curve, map[];
    }

    /** The secret of `key` is in place. */
    ghost predicate Holds(contents: map<string, seq<byte>>, key: PublicKey) {
      FileName(key) in contents && |contents[FileName(key)]| == 32 && public(contents[FileName(key)]) == key
    }

    /** Writes a secret under its public half, unless a file of that name is there already. */
    method Insert(secret: SecretKey)
      modifies this`files
      ensures files == if FileName(public(secret)) in old(files) then old(files)
                       else old(files)[FileName(public(secret)) := secret]
    {
      var path := FileName(public(secret));
      if path in files {
        return;
      }
      files := files[path := secret];
    }

    /** `secret` is what the system's randomness came up with. The minted key can be loaded
        exactly if no file of its name was there, or the one there was already its secret; no
        other key is touched. */
    method Generate(secret: SecretKey) returns (key: PublicKey)
      modifies this`files
      ensures key == public(secret)
      ensures Holds(files, key) <==> FileName(key) !in old(files) || Holds(old(files), key)
      ensures forall name :: name in old(files) ==> name in files && files[name] == old(files)[name]
      ensures files.Keys == old(files).Keys + {FileName(key)}
    {
      Insert(secret);
      key := public(secret);
    }

    /** Loads the secret of a key. The store verifies itself: whatever became of the files,
        what is returned belongs to the key asked for, and it is returned whenever it is there. */
    method Secret(key: PublicKey) returns (secret: Result<SecretKey, KeyError>)
      ensures secret.Success? <==> Holds(files, key)
      ensures secret.Success? ==> public(secret.value) == key && secret.value == files[FileName(key)]
      ensures secret == Failure(Missing) <==> FileName(key) !in files
      ensures secret == Failure(WrongSize) <==> FileName(key) in files && |files[FileName(key)]| != 32
    {
      var path := FileName(key);
      if path !in files {
        return Failure(Missing);
      }
      var bytes := files[path];
      if |bytes| != 32 {
        return Failure(WrongSize);
      }
      if public(bytes) != key {
        return Failure(Misfiled);
      }
      return Success(bytes);
    }

    /** Every key in the directory, sorted by its bytes; a file that looks like a key but is
        not named after one is reported. `entries` is the order the directory is read in.
        Every key whose secret was generated into the directory is there. */
    method List(entries: seq<string>) returns (keys: Option<seq<PublicKey>>)
      requires multiset(entries) == multiset(files.Keys)
      ensures keys.None? <==> SomeMisnamed(curve, entries)
      ensures keys.Some? ==> KeysNamed(curve, entries).Some? && Sorted(keys.value)
      ensures keys.Some? ==> multiset(keys.value) == multiset(KeysNamed(curve, entries).value)
      ensures keys.Some? ==> |keys.value| == |KeyFiles(files.Keys)|
      ensures keys.Some? ==> forall key: PublicKey :: multiset(keys.value)[key] == |FilesOf(curve, files.Keys, key)|
      ensures keys.Some? ==> forall key: PublicKey :: key in keys.value <==> IsNamed(curve, entries, key)
      ensures keys.Some? ==> forall key: PublicKey :: curve(key) && FileName(key) in files ==> key in keys.value
    {
      var found: seq<PublicKey> := [];
      for i := 0 to |entries|
        invariant KeysNamed(curve, entries[..i]) == Some(found)
      {
        assert entries[..i + 1][..i] == entries[..i];
        match EntryOf(curve, entries[i]) {
          case NoKey =>
          case Misnamed =>
            assert entries[i] in entries;
            return None;
          case Named(key) =>
            found := found + [key];
        }
      }
      assert entries[..|entries|] == entries;
      ListsUnlessMisnamed(curve, entries);
      SortsByBytes(found);
      keys := Some(SortById52(found));
      AllAreListed(entries, found, keys.value);
      ListedAsOften(entries, found, keys.value);
    }

    lemma ListedAsOften(entries: seq<string>, found: seq<PublicKey>, sorted: seq<PublicKey>)
      requires multiset(entries) == multiset(files.Keys)
      requires KeysNamed(curve, entries) == Some(found) && multiset(sorted) == multiset(found)
      ensures |sorted| == |KeyFiles(files.Keys)|
      ensures forall key: PublicKey :: multiset(sorted)[key] == |FilesOf(curve, files.Keys, key)|
    {
      ReadOnce(entries, files.Keys);
      assert |sorted| == |multiset(sorted)| == |multiset(found)| == |found|;
      NamedAsOften(curve, entries, Zeros32());
      forall key: PublicKey ensures multiset(sorted)[key] == |FilesOf(curve, files.Keys, key)| {
        NamedAsOften(curve, entries, key);
      }
    }

    /** So in a directory of generated keys each is listed exactly once. */
    lemma GeneratedListedOnce(keys: seq<PublicKey>, key: PublicKey)
      requires forall name :: name in files && Stem(name).Some? ==>
                 exists k: PublicKey :: curve(k) && name == FileName(k)
      requires forall k: PublicKey :: multiset(keys)[k] == |FilesOf(curve, files.Keys, k)|
      ensures multiset(keys)[key] == if curve(key) && FileName(key) in files then 1 else 0
    {
      FiledOnce(curve, files.Keys, key);
    }

    lemma AllAreListed(entries: seq<string>, found: seq<PublicKey>, sorted: seq<PublicKey>)
      requires multiset(entries) == multiset(files.Keys)
      requires KeysNamed(curve, entries) == Some(found) && multiset(sorted) == multiset(found)
      ensures forall key: PublicKey :: key in sorted <==> IsNamed(curve, entries, key)
      ensures forall key: PublicKey :: curve(key) && FileName(key) in files ==> key in sorted
    {
      forall key: PublicKey ensures key in sorted <==> IsNamed(curve, entries, key) {
        NamedExactly(curve, entries, key);
        assert key in sorted <==> key in multiset(sorted);
        assert key in found <==> key in multiset(found);
      }
      forall key: PublicKey | curve(key) && FileName(key) in files ensures key in sorted {
        assert FileName(key) in multiset(entries);
        StoredIsNamed(curve, entries, key);
        assert key in multiset(found);
      }
    }
  }
}
