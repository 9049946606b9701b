/** Encrypted snapshots of the database, their listing and their pruning (`vault/backup.rs`). */
module Backup {
  import opened Common
  import opened Symbolic
  import opened Keys
  import opened Stamps
  import Lex
  import StableSort

  const MAGIC := "SYPHBAK1"

  datatype BackupError = BadMagic | Truncated | DecryptError | NoVault

  // ---- The archive format -----------------------------------------------------------

  function Archive(image: Bytes, outer: Key, nonce: Nonce): Bytes {
    Ascii(MAGIC) + nonce + Encrypt(BackupKey(outer), nonce, Ascii(MAGIC), image)
  }

  function Restore(raw: Bytes, outer: Key): Result<Bytes, BackupError> {
    if |raw| < |MAGIC| + NONCE_LEN then Err(Truncated)
    else if raw[..|MAGIC|] != Ascii(MAGIC) then Err(BadMagic)
    else
      match Decrypt(BackupKey(outer), raw[|MAGIC|..|MAGIC| + NONCE_LEN], Ascii(MAGIC), raw[|MAGIC| + NONCE_LEN..])
      case None => Err(DecryptError)
      case Some(image) => Ok(image)
  }

  lemma RestoreArchive(image: Bytes, outer: Key, nonce: Nonce)
    ensures Restore(Archive(image, outer, nonce), outer) == Ok(image)
  {
    var raw, c := Archive(image, outer, nonce), Encrypt(BackupKey(outer), nonce, Ascii(MAGIC), image);
    assert raw[..|MAGIC|] == Ascii(MAGIC) && raw[|MAGIC|..|MAGIC| + NONCE_LEN] == nonce && raw[|MAGIC| + NONCE_LEN..] == c;
    DecryptIff(BackupKey(outer), nonce, Ascii(MAGIC), c, image);
  }

  /** The exact inverse image: a file restores to an image if and only if it is an archive of that
      image made under this outer key. */
  lemma RestoresOnlyArchives(raw: Bytes, outer: Key, image: Bytes)
    ensures Restore(raw, outer) == Ok(image) <==> exists nonce: Nonce :: raw == Archive(image, outer, nonce)
  {
    if nonce: Nonce :| raw == Archive(image, outer, nonce) {
      RestoreArchive(image, outer, nonce);
    }
    if Restore(raw, outer) == Ok(image) {
      var nonce: Nonce := raw[|MAGIC|..|MAGIC| + NONCE_LEN];
      var c := raw[|MAGIC| + NONCE_LEN..];
      DecryptIff(BackupKey(outer), nonce, Ascii(MAGIC), c, image);
      assert raw == raw[..|MAGIC|] + nonce + c;
      assert raw == Archive(image, outer, nonce);
    }
  }

  /** An archive opens under the outer key it was made with and under no other. */
  lemma ArchiveBinds(image: Bytes, outer: Key, nonce: Nonce, other: Key)
    ensures Restore(Archive(image, outer, nonce), other) == if other == outer then Ok(image) else Err(DecryptError)
  {
    var raw, c := Archive(image, outer, nonce), Encrypt(BackupKey(outer), nonce, Ascii(MAGIC), image);
    RestoreArchive(image, outer, nonce);
    assert raw[..|MAGIC|] == Ascii(MAGIC) && raw[|MAGIC|..|MAGIC| + NONCE_LEN] == nonce && raw[|MAGIC| + NONCE_LEN..] == c;
    if Decrypt(BackupKey(other), nonce, Ascii(MAGIC), c).Some? {
      var image' := Decrypt(BackupKey(other), nonce, Ascii(MAGIC), c).value;
      DecryptIff(BackupKey(other), nonce, Ascii(MAGIC), c, image');
      EncryptInjective(BackupKey(other), nonce, Ascii(MAGIC), image', BackupKey(outer), nonce, Ascii(MAGIC), image);
      DerivedKeysNeverCollide(other, BackupPurpose, outer, BackupPurpose);
    }
  }

  lemma ArchiveParts(image: Bytes, outer: Key, nonce: Nonce)
    ensures var raw := Archive(image, outer, nonce);
            && raw[..|MAGIC|] == Ascii(MAGIC)
            && raw[|MAGIC|..] == nonce + Encrypt(BackupKey(outer), nonce, Ascii(MAGIC), image)
            && |raw| == |MAGIC| + NONCE_LEN + |image| + TAG_LEN
  {
    assert Archive(image, outer, nonce) == Ascii(MAGIC) + (nonce + Encrypt(BackupKey(outer), nonce, Ascii(MAGIC), image));
  }

  /** A damaged archive is never restored: a changed byte is reported as a foreign file or by the tag. */
  lemma DamagedArchiveFails(image: Bytes, outer: Key, nonce: Nonce, i: nat, b: Atom)
    requires i < |Archive(image, outer, nonce)| && Archive(image, outer, nonce)[i] != b
    ensures Restore(Archive(image, outer, nonce)[i := b], outer) == Err(if i < |MAGIC| then BadMagic else DecryptError)
  {
    hide Archive, BackupKey;
    var raw := Archive(image, outer, nonce);
    var changed := raw[i := b];
    ArchiveParts(image, outer, nonce);
    if i < |MAGIC| {
      assert changed[..|MAGIC|][i] != raw[..|MAGIC|][i];
    } else {
      var rest := nonce + Encrypt(BackupKey(outer), nonce, Ascii(MAGIC), image);
      assert changed[..|MAGIC|] == raw[..|MAGIC|];
      assert changed[|MAGIC|..] == rest[i - |MAGIC| := b];
      ChangedByteFails(BackupKey(outer), nonce, Ascii(MAGIC), image, i - |MAGIC|, b);
      assert changed[|MAGIC|..|MAGIC| + NONCE_LEN] == changed[|MAGIC|..][..NONCE_LEN];
      assert changed[|MAGIC| + NONCE_LEN..] == changed[|MAGIC|..][NONCE_LEN..];
    }
  }

  /** So is one that was cut off. */
  lemma CutOffArchiveFails(image: Bytes, outer: Key, nonce: Nonce, n: nat)
    requires n < |Archive(image, outer, nonce)|
    ensures Restore(Archive(image, outer, nonce)[..n], outer) == Err(if n < |MAGIC| + NONCE_LEN then Truncated else DecryptError)
  {
    hide Archive, BackupKey;
    var raw := Archive(image, outer, nonce);
    var cut := raw[..n];
    ArchiveParts(image, outer, nonce);
    if n >= |MAGIC| + NONCE_LEN {
      CutOffFails(BackupKey(outer), nonce, Ascii(MAGIC), image, n - |MAGIC|);
      assert cut[..|MAGIC|] == raw[..|MAGIC|];
      assert cut[|MAGIC|..] == raw[|MAGIC|..][..n - |MAGIC|];
      assert cut[|MAGIC|..|MAGIC| + NONCE_LEN] == cut[|MAGIC|..][..NONCE_LEN];
      assert cut[|MAGIC| + NONCE_LEN..] == cut[|MAGIC|..][NONCE_LEN..];
    }
  }

  // ---- Which files are archives -------------------------------------------------------

  function LastDot(name: string): (i: int)
    ensures -1 <= i < |name|
  {
    if name == "" then -1 else if name[|name| - 1] == '.' then |name| - 1 else LastDot(name[..|name| - 1])
  }

  /** `Path::extension`: what follows the last dot, unless that dot is the first character. */
  function Extension(name: string): Option<string> {
    var i := LastDot(name);
    if name == ".." || i <= 0 then None else Some(name[i + 1..])
  }

  predicate IsArchive(name: string) {
    Extension(name) == Some("syphbak")
  }

  lemma {:induction false} LastDotIsLast(name: string)
    ensures var i := LastDot(name);
            (i >= 0 ==> name[i] == '.') && forall j | i < j < |name| :: name[j] != '.'
    decreases |name|
  {
    if name != "" && name[|name| - 1] != '.' {
      LastDotIsLast(name[..|name| - 1]);
    }
  }

  lemma ArchivesByName(name: string)
    ensures IsArchive(name) <==> |name| > 8 && name[|name| - 8..] == ".syphbak"
  {
    LastDotIsLast(name);
    var i := LastDot(name);
    if i > 0 && name[i + 1..] == "syphbak" {
      assert name[i..] == [name[i]] + name[i + 1..];
    }
    if |name| > 8 && name[|name| - 8..] == ".syphbak" {
      var k := |name| - 8;
      assert forall j | k <= j < |name| :: name[j] == name[k..][j - k] == ".syphbak"[j - k];
      assert forall d | 1 <= d < 8 :: ".syphbak"[d] != '.';
      assert i == k by {
        assert name[k] == '.';
      }
      assert name[k + 1..] == name[k..][1..];
    }
  }

  /** The intermediate file of the atomic write, renamed to the archive. */
  function TempName(secs: nat): string {
    "vault-" + Timestamp(secs) + ".tmp"
  }

  lemma CreatedIsArchive(secs: nat)
    ensures IsArchive(ArchiveName(secs)) && !IsArchive(TempName(secs)) && ArchiveName(secs) != TempName(secs)
  {
    hide Timestamp, LastDot;
    ArchivesByName(ArchiveName(secs));
    ArchivesByName(TempName(secs));
    var name, temp := ArchiveName(secs), TempName(secs);
    assert name[|name| - 8..] == ".syphbak";
    assert temp[|temp| - 4..] == ".tmp";
    if |temp| > 8 {
      assert temp[|temp| - 8..][4..] == ".tmp";
    }
  }

  // ---- Listing --------------------------------------------------------------------------

  ghost predicate Descending(r: seq<string>) {
    forall i, j | 0 <= i < j < |r| :: Lex.Less(r[j], r[i])
  }

  /** The archives among `names`, each once, in strictly descending order. */
  ghost predicate Lists(r: seq<string>, names: set<string>) {
    Descending(r) && forall n :: n in r <==> n in names && IsArchive(n)
  }

  ghost function NewerThan(names: set<string>, n: string): set<string> {
    set m | m in names && IsArchive(m) && Lex.Less(n, m)
  }

  ghost function SetOf<T>(s: seq<T>): set<T> {
    set x | x in s
  }

  lemma {:induction false} SizeOfDistinct<T>(s: seq<T>)
    requires Distinct(s)
    ensures |SetOf(s)| == |s|
    decreases |s|
  {
    if s != [] {
      SizeOfDistinct(s[1..]);
      assert SetOf(s) == {s[0]} + SetOf(s[1..]);
    }
  }

  lemma DescendingIsDistinct(r: seq<string>)
    requires Descending(r)
    ensures Distinct(r)
  {
    forall i, j | 0 <= i < j < |r| ensures r[i] != r[j] {
      Lex.Irreflexive(r[i]);
    }
  }

  /** A name's place in a listing is the number of archives with later names. */
  lemma PlaceIsRank(r: seq<string>, names: set<string>, i: nat)
    requires Lists(r, names) && i < |r|
    ensures NewerThan(names, r[i]) == SetOf(r[..i]) && |NewerThan(names, r[i])| == i
  {
    forall m ensures m in NewerThan(names, r[i]) <==> m in r[..i] {
      if m in names && IsArchive(m) && Lex.Less(r[i], m) {
        var j :| 0 <= j < |r| && r[j] == m;
        Lex.Asymmetric(r[i], r[j]);
        assert j < i;
        assert m == r[..i][j];
      }
      if m in r[..i] {
        var j :| 0 <= j < i && r[j] == m;
        assert m in r;
      }
    }
    DescendingIsDistinct(r);
    SizeOfDistinct(r[..i]);
  }

  /** There is only one listing of a directory. */
  lemma ListingIsUnique(r: seq<string>, s: seq<string>, names: set<string>)
    requires Lists(r, names) && Lists(s, names)
    ensures r == s
  {
    DescendingIsDistinct(r);
    DescendingIsDistinct(s);
    SizeOfDistinct(r);
    SizeOfDistinct(s);
    assert SetOf(r) == SetOf(s);
    forall i | 0 <= i < |r| ensures r[i] == s[i] {
      assert r[i] in s;
      var j :| 0 <= j < |s| && s[j] == r[i];
      PlaceIsRank(r, names, i);
      PlaceIsRank(s, names, j);
    }
  }

  lemma AtMostIsPreorder()
    ensures StableSort.TotalPreorder(Lex.AtMost)
  {
    forall a: string, b: string ensures Lex.AtMost(a, b) || Lex.AtMost(b, a) {
      Lex.Trichotomy(a, b);
    }
    forall a: string, b: string, c: string | Lex.AtMost(a, b) && Lex.AtMost(b, c) ensures Lex.AtMost(a, c) {
      if a != b && b != c {
        Lex.Transitive(a, b, c);
      }
    }
  }

  lemma {:induction false} DistinctByCount<T>(s: seq<T>)
    ensures Distinct(s) <==> forall x | x in s :: multiset(s)[x] == 1
    decreases |s|
  {
    if s != [] {
      var rest := s[1..];
      assert s == [s[0]] + rest;
      DistinctByCount(rest);
      if Distinct(s) {
        assert forall i | 0 <= i < |rest| :: rest[i] == s[i + 1] != s[0];
        forall x | x in s ensures multiset(s)[x] == 1 {
          assert x in rest <==> x in multiset(rest);
        }
      }
      if forall x | x in s :: multiset(s)[x] == 1 {
        assert s[0] !in rest by {
          assert multiset(s)[s[0]] == 1 + multiset(rest)[s[0]];
        }
        forall x | x in rest ensures multiset(rest)[x] == 1 {
          assert x in s && x != s[0];
        }
        forall i, j | 0 <= i < j < |s| ensures s[i] != s[j] {
          assert s[j] == rest[j - 1];
          if i > 0 {
            assert s[i] == rest[i - 1];
          }
        }
      }
    }
  }

  function Reversed<T>(s: seq<T>): seq<T> {
    seq(|s|, i requires 0 <= i < |s| => s[|s| - 1 - i])
  }

  lemma SortedThenReversed(found: seq<string>)
    requires Distinct(found)
    ensures var r := Reversed(StableSort.Sort(found, Lex.AtMost)); Descending(r) && forall n :: n in r <==> n in found
  {
    hide Lex.Less, StableSort.Sort;
    var sorted := StableSort.Sort(found, Lex.AtMost);
    AtMostIsPreorder();
    StableSort.SortOrders(found, Lex.AtMost);
    StableSort.SortKeeps(found, Lex.AtMost);
    hide StableSort.TotalPreorder;
    forall x ensures x in sorted <==> x in found {
      assert x in multiset(sorted) <==> x in multiset(found);
    }
    DistinctByCount(found);
    DistinctByCount(sorted);
    var r := Reversed(sorted);
    forall n ensures n in r <==> n in sorted {
      if n in sorted {
        var i :| 0 <= i < |sorted| && sorted[i] == n;
        assert r[|sorted| - 1 - i] == n;
      }
    }
  }

  // ---- Pruning -----------------------------------------------------------------------------

  /** What a prune removes: the archives with at least `keep` later ones, except those that the file
      system refuses to remove. */
  ghost function Doomed(names: set<string>, keep: nat, refused: set<string>): set<string> {
    set n | n in names && IsArchive(n) && |NewerThan(names, n)| >= keep && n !in refused
  }

  // ---- The directory -------------------------------------------------------------------------

  /** The directory after an archive was written atomically through its intermediate file. */
  function Written(files: map<string, Bytes>, secs: nat, archive: Bytes): map<string, Bytes> {
    files[ArchiveName(secs) := archive] - {TempName(secs)}
  }

  /** Afterwards the archive stands under its name, the intermediate file is gone, and every other file is as
      it was. */
  lemma ArchiveIsWritten(files: map<string, Bytes>, secs: nat, archive: Bytes, name: string)
    ensures var files' := Written(files, secs, archive);
            && ArchiveName(secs) in files' && files'[ArchiveName(secs)] == archive && TempName(secs) !in files'
            && (name != ArchiveName(secs) && name != TempName(secs) ==>
                  (name in files' <==> name in files) && (name in files ==> files'[name] == files[name]))
  {
    hide ArchiveName, TempName;
    CreatedIsArchive(secs);
  }

  class BackupStore {
    var present: bool
    var files: map<string, Bytes>

    ghost predicate Valid()
      reads this
    {
      !present ==> files == map[]
    }

    constructor ()
      ensures Valid() && !present
    {
      present := false;
      files := map[];
    }

    method List() returns (r: seq<string>)
      requires Valid()
      ensures Lists(r, files.Keys)
    {
      if !present {
        return [];
      }
      var found, rest := [], files.Keys;
      while rest != {}
        invariant rest <= files.Keys
        invariant Distinct(found)
        invariant forall n :: n in found <==> n in files && n !in rest && IsArchive(n)
      {
        var name :| name in rest;
        rest := rest - {name};
        if IsArchive(name) {
          found := found + [name];
        }
      }
      SortedThenReversed(found);
      r := Reversed(StableSort.Sort(found, Lex.AtMost));
    }

    method Prune(keep: nat, refused: set<string>) returns (removed: nat)
      requires Valid()
      modifies `files
      ensures Valid()
      ensures files == old(files) - Doomed(old(files.Keys), keep, refused)
      ensures removed == |Doomed(old(files.Keys), keep, refused)|
    {
      hide Lists, Doomed, Gone, SetOf, IsArchive, Lex.Less;
      var archives := List();
      var skipped := archives[if keep <= |archives| then keep else |archives|..];
      removed := 0;
      ghost var before := files;
      NoneGone(before, skipped, refused);
      var i := 0;
      while i < |skipped|
        invariant 0 <= i <= |skipped|
        invariant files == before - Gone(skipped, i, refused) && removed == |Gone(skipped, i, refused)|
      {
        OneMoreGone(before, archives, before.Keys, skipped, i, refused);
        if skipped[i] !in refused {
          files := files - {skipped[i]};
          removed := removed + 1;
        }
        i := i + 1;
      }
      DoomedInOrder(archives, before.Keys, keep, refused);
    }

    method Create(db: Option<Bytes>, outer: Key, nonce: Nonce, secs: nat) returns (r: Result<string, BackupError>)
      requires Valid()
      modifies this
      ensures Valid()
      ensures db.None? ==> r == Err(NoVault) && present == old(present) && files == old(files)
      ensures db.Some? ==>
                && r == Ok(ArchiveName(secs)) && present
                && files == Written(old(files), secs, Archive(db.value, outer, nonce))
    {
      if db.None? {
        return Err(NoVault);
      }
      var header := [];
      header := header + Ascii(MAGIC);
      header := header + nonce;
      var ciphertext := Encrypt(BackupKey(outer), nonce, Ascii(MAGIC), db.value);
      var archive := header;
      archive := archive + ciphertext;
      present := true;
      files := files[TempName(secs) := archive];
      files := files[ArchiveName(secs) := archive] - {TempName(secs)};
      r := Ok(ArchiveName(secs));
      CreatedIsArchive(secs);
      assert archive == Archive(db.value, outer, nonce);
    }

    /** The `backup` command: a snapshot, then a prune to the configured retention. */
    method BackUp(db: Option<Bytes>, outer: Key, nonce: Nonce, secs: nat, keep: nat, refused: set<string>)
      returns (r: Result<string, BackupError>)
      requires Valid()
      modifies this
      ensures Valid()
      ensures r.Err? <==> db.None?
      ensures r.Err? ==> files == old(files)
      ensures r.Ok? ==> r.value == ArchiveName(secs)
                        && files == Backed(old(files), secs, Archive(db.value, outer, nonce), keep, refused)
    {
      r := Create(db, outer, nonce, secs);
      if r.Ok? {
        var _ := Prune(keep, refused);
      }
    }
  }

  /** What is gone after `i` attempts. */
  ghost function Gone(skipped: seq<string>, i: nat, refused: set<string>): set<string>
    requires i <= |skipped|
  {
    SetOf(skipped[..i]) - refused
  }

  lemma NoneGone(files: map<string, Bytes>, skipped: seq<string>, refused: set<string>)
    ensures files == files - Gone(skipped, 0, refused) && |Gone(skipped, 0, refused)| == 0
  {
    assert Gone(skipped, 0, refused) == {};
  }

  lemma OneMoreGone(files: map<string, Bytes>, archives: seq<string>, names: set<string>, skipped: seq<string>, i: nat, refused: set<string>)
    requires Lists(archives, names) && |skipped| <= |archives| && skipped == archives[|archives| - |skipped|..] && i < |skipped|
    ensures var (g, g') := (Gone(skipped, i, refused), Gone(skipped, i + 1, refused));
            if skipped[i] in refused then g' == g
            else |g'| == |g| + 1 && (files - g) - {skipped[i]} == files - g'
  {
    hide Lex.Less, IsArchive;
    DescendingIsDistinct(archives);
    assert skipped[..i + 1] == skipped[..i] + [skipped[i]];
    var g, g' := Gone(skipped, i, refused), Gone(skipped, i + 1, refused);
    assert forall j | 0 <= j < i :: skipped[j] == archives[|archives| - |skipped| + j] != skipped[i];
    if skipped[i] !in refused {
      assert g' == g + {skipped[i]} && skipped[i] !in g;
      TakeOneMore(files, g, skipped[i]);
    }
  }

  lemma TakeOneMore(files: map<string, Bytes>, gone: set<string>, name: string)
    ensures (files - gone) - {name} == files - (gone + {name})
  {
  }

  lemma DoomedInOrder(archives: seq<string>, names: set<string>, keep: nat, refused: set<string>)
    requires Lists(archives, names)
    ensures var skipped := archives[if keep <= |archives| then keep else |archives|..];
            Doomed(names, keep, refused) == Gone(skipped, |skipped|, refused)
  {
    var skipped := archives[if keep <= |archives| then keep else |archives|..];
    assert skipped[..|skipped|] == skipped;
    forall n ensures n in names && IsArchive(n) && |NewerThan(names, n)| >= keep <==> n in skipped {
      if n in archives {
        var j :| 0 <= j < |archives| && archives[j] == n;
        PlaceIsRank(archives, names, j);
        if j >= keep {
          assert skipped[j - keep] == n;
        }
        DescendingIsDistinct(archives);
      } else {
        assert forall k | 0 <= k < |skipped| :: skipped[k] in archives;
      }
    }
  }

  // ---- Archives made at distinct seconds ------------------------------------------------------

  ghost function Backed(files: map<string, Bytes>, secs: nat, archive: Bytes, keep: nat, refused: set<string>): map<string, Bytes> {
    var written := Written(files, secs, archive);
    written - Doomed(written.Keys, keep, refused)
  }

  ghost function NamesOf(times: set<nat>): set<string> {
    set t | t in times :: ArchiveName(t)
  }

  ghost function Later(times: set<nat>, t: nat): set<nat> {
    set u | u in times && u > t
  }

  /** The `keep` largest members, or all of them. */
  ghost function Newest(times: set<nat>, keep: nat): set<nat> {
    set t | t in times && |Later(times, t)| < keep
  }

  ghost predicate BeforeRollover(times: set<nat>) {
    forall t | t in times :: t < YEAR_10000
  }

  lemma {:induction false} OneNamePerSecond(times: set<nat>)
    ensures |NamesOf(times)| == |times|
    decreases |times|
  {
    hide ArchiveName;
    if times != {} {
      var t :| t in times;
      OneNamePerSecond(times - {t});
      forall u | u in times - {t} ensures ArchiveName(u) != ArchiveName(t) {
        NamesCollideExactly(u, t);
      }
      assert ArchiveName(t) !in NamesOf(times - {t});
      assert NamesOf(times) == NamesOf(times - {t}) + {ArchiveName(t)};
    }
  }

  lemma NewerIsLater(times: set<nat>, t: nat)
    requires BeforeRollover(times) && t in times
    ensures NewerThan(NamesOf(times), ArchiveName(t)) == NamesOf(Later(times, t))
    ensures |NewerThan(NamesOf(times), ArchiveName(t))| == |Later(times, t)|
  {
    hide ArchiveName, IsArchive, Lex.Less;
    forall u | u in times ensures IsArchive(ArchiveName(u)) && (Lex.Less(ArchiveName(t), ArchiveName(u)) <==> u > t) {
      CreatedIsArchive(u);
      NamesSort(t, u);
    }
    OneNamePerSecond(Later(times, t));
  }

  lemma {:induction false} NewestCount(times: set<nat>, keep: nat)
    ensures |Newest(times, keep)| == if keep < |times| then keep else |times|
    decreases |times|
  {
    if times == {} {
      assert Newest(times, keep) == {};
    } else {
      var least := Least(times);
      var rest := times - {least};
      NewestCount(rest, keep);
      assert Later(times, least) == rest;
      forall t | t in rest ensures Later(times, t) == Later(rest, t) {
      }
      assert Newest(times, keep) == Newest(rest, keep) + if |rest| < keep then {least} else {};
    }
  }

  lemma {:induction false} Least(times: set<nat>) returns (least: nat)
    requires times != {}
    ensures least in times && forall t | t in times :: least <= t
    decreases |times|
  {
    var first :| first in times;
    least := first;
    if times != {first} {
      var other := Least(times - {first});
      least := if other < first then other else first;
      forall t | t in times ensures least <= t {
        assert t == first || t in times - {first};
      }
    }
  }

  /** In a directory of archives made before the year 10000, a prune that is refused nothing leaves
      exactly the `keep` newest, and removes all the others. */
  lemma PruneKeepsTheNewest(times: set<nat>, keep: nat)
    requires BeforeRollover(times)
    ensures var names := NamesOf(times);
            && names - Doomed(names, keep, {}) == NamesOf(Newest(times, keep))
            && |Newest(times, keep)| == (if keep < |times| then keep else |times|)
            && |Doomed(names, keep, {})| == |times| - |Newest(times, keep)|
  {
    hide ArchiveName, IsArchive, NewerThan;
    var names := NamesOf(times);
    forall t | t in times ensures ArchiveName(t) in Doomed(names, keep, {}) <==> |Later(times, t)| >= keep {
      CreatedIsArchive(t);
      NewerIsLater(times, t);
    }
    forall t, u | t in times && ArchiveName(t) == ArchiveName(u) ensures t == u {
      NamesCollideExactly(t, u);
    }
    NewestCount(times, keep);
    OneNamePerSecond(times);
    OneNamePerSecond(Newest(times, keep));
    assert Doomed(names, keep, {}) == names - NamesOf(Newest(times, keep));
  }

  /** A listing of such a directory is newest first. */
  lemma ListingIsChronological(times: set<nat>, r: seq<string>, i: nat, j: nat, t: nat, u: nat)
    requires BeforeRollover(times) && Lists(r, NamesOf(times)) && t in times && u in times
    ensures |r| == |times|
    ensures i < |r| && j < |r| && r[i] == ArchiveName(t) && r[j] == ArchiveName(u) ==>
              (i < j <==> t > u) && i == |Later(times, t)|
  {
    hide ArchiveName;
    if i < |r| && j < |r| && r[i] == ArchiveName(t) && r[j] == ArchiveName(u) {
      NewerIsLater(times, t);
      PlaceIsRank(r, NamesOf(times), i);
      NamesSort(t, u);
      NamesSort(u, t);
      NamesCollideExactly(t, u);
      if j < i {
        assert Lex.Less(r[i], r[j]);
      }
    }
    DescendingIsDistinct(r);
    forall v | v in times ensures ArchiveName(v) in r {
      CreatedIsArchive(v);
    }
    assert SetOf(r) == NamesOf(times);
    SizeOfDistinct(r);
    OneNamePerSecond(times);
  }

  /** The archive just made is pruned again exactly when `keep` archives have later names: always with
      a retention of 0, and otherwise when the clock went back. */
  lemma FreshArchiveSurvives(files: map<string, Bytes>, secs: nat, archive: Bytes, keep: nat)
    ensures var name := ArchiveName(secs);
            && (name in Backed(files, secs, archive, keep, {}) <==> |NewerThan(files.Keys, name)| < keep)
            && (name in Backed(files, secs, archive, keep, {}) ==> Backed(files, secs, archive, keep, {})[name] == archive)
  {
    hide ArchiveName, TempName, IsArchive, Lex.Less;
    var name, written := ArchiveName(secs), Written(files, secs, archive);
    CreatedIsArchive(secs);
    Lex.Irreflexive(name);
    assert NewerThan(written.Keys, name) == NewerThan(files.Keys, name);
  }

  datatype Job = Job(secs: nat, archive: Bytes)

  /** One backup after another into an empty directory. */
  ghost function BackedUp(jobs: seq<Job>, keep: nat): map<string, Bytes>
    decreases |jobs|
  {
    if jobs == [] then map[]
    else
      var n := |jobs| - 1;
      Backed(BackedUp(jobs[..n], keep), jobs[n].secs, jobs[n].archive, keep, {})
  }

  ghost predicate Increasing(jobs: seq<Job>) {
    && (forall i, j | 0 <= i < j < |jobs| :: jobs[i].secs < jobs[j].secs)
    && (forall i | 0 <= i < |jobs| :: jobs[i].secs < YEAR_10000)
  }

  /** The seconds of the jobs from index `lo` on. */
  ghost function Seconds(jobs: seq<Job>, lo: nat): set<nat> {
    set i | lo <= i < |jobs| :: jobs[i].secs
  }

  function FirstKept(n: nat, keep: nat): nat {
    if n < keep then 0 else n - keep
  }

  lemma {:induction false} SecondsCount(jobs: seq<Job>, lo: nat)
    requires Increasing(jobs) && lo <= |jobs|
    ensures |Seconds(jobs, lo)| == |jobs| - lo
    decreases |jobs| - lo
  {
    if lo == |jobs| {
      assert Seconds(jobs, lo) == {};
    } else {
      SecondsCount(jobs, lo + 1);
      assert Seconds(jobs, lo) == {jobs[lo].secs} + Seconds(jobs, lo + 1);
      assert jobs[lo].secs !in Seconds(jobs, lo + 1);
    }
  }

  lemma NewestJobs(jobs: seq<Job>, lo: nat, keep: nat)
    requires Increasing(jobs) && lo <= FirstKept(|jobs|, keep)
    ensures Newest(Seconds(jobs, lo), keep) == Seconds(jobs, FirstKept(|jobs|, keep))
  {
    forall k | lo <= k < |jobs| ensures |Later(Seconds(jobs, lo), jobs[k].secs)| == |jobs| - 1 - k {
      SecondsCount(jobs, k + 1);
      assert Later(Seconds(jobs, lo), jobs[k].secs) == Seconds(jobs, k + 1);
    }
  }

  /** `files` holds the archives of the jobs from index `lo` on, and nothing else. */
  ghost predicate HoldsJobs(files: map<string, Bytes>, jobs: seq<Job>, lo: nat) {
    && files.Keys == NamesOf(Seconds(jobs, lo))
    && forall i | lo <= i < |jobs| :: ArchiveName(jobs[i].secs) in files && files[ArchiveName(jobs[i].secs)] == jobs[i].archive
  }

  lemma WritingAddsOne(prev: map<string, Bytes>, jobs: seq<Job>, lo: nat)
    requires Increasing(jobs) && jobs != [] && lo < |jobs|
    requires HoldsJobs(prev, jobs[..|jobs| - 1], lo)
    ensures HoldsJobs(Written(prev, jobs[|jobs| - 1].secs, jobs[|jobs| - 1].archive), jobs, lo)
  {
    hide ArchiveName, TempName, Seconds, NamesOf;
    var n := |jobs| - 1;
    var written := Written(prev, jobs[n].secs, jobs[n].archive);
    SecondsSnoc(jobs, lo);
    NamesApart(jobs, lo);
    forall i | lo <= i < |jobs|
      ensures ArchiveName(jobs[i].secs) in written && written[ArchiveName(jobs[i].secs)] == jobs[i].archive
    {
      if i < n {
        assert ArchiveName(jobs[..n][i].secs) in prev;
      }
    }
  }

  lemma SecondsSnoc(jobs: seq<Job>, lo: nat)
    requires jobs != [] && lo < |jobs|
    ensures var n := |jobs| - 1; NamesOf(Seconds(jobs, lo)) == NamesOf(Seconds(jobs[..n], lo)) + {ArchiveName(jobs[n].secs)}
  {
    hide ArchiveName;
    var n := |jobs| - 1;
    assert forall k | 0 <= k < n :: jobs[..n][k] == jobs[k];
    assert Seconds(jobs, lo) == Seconds(jobs[..n], lo) + {jobs[n].secs};
  }

  /** The job written last shares its names with no earlier job. */
  lemma NamesApart(jobs: seq<Job>, lo: nat)
    requires Increasing(jobs) && jobs != [] && lo < |jobs|
    ensures TempName(jobs[|jobs| - 1].secs) !in NamesOf(Seconds(jobs, lo))
    ensures forall k | lo <= k < |jobs| - 1 :: ArchiveName(jobs[k].secs) != ArchiveName(jobs[|jobs| - 1].secs)
  {
    hide ArchiveName, TempName, IsArchive;
    var n := |jobs| - 1;
    forall k | lo <= k < |jobs|
      ensures ArchiveName(jobs[k].secs) != TempName(jobs[n].secs)
      ensures k < n ==> ArchiveName(jobs[k].secs) != ArchiveName(jobs[n].secs)
    {
      CreatedIsArchive(jobs[k].secs);
      CreatedIsArchive(jobs[n].secs);
      NamesCollideExactly(jobs[k].secs, jobs[n].secs);
    }
  }

  lemma PruningKeepsTheLast(files: map<string, Bytes>, jobs: seq<Job>, lo: nat, keep: nat)
    requires Increasing(jobs) && HoldsJobs(files, jobs, lo) && lo <= FirstKept(|jobs|, keep)
    ensures HoldsJobs(files - Doomed(files.Keys, keep, {}), jobs, FirstKept(|jobs|, keep))
  {
    hide ArchiveName, Doomed, Newest;
    var last := FirstKept(|jobs|, keep);
    PruneKeepsTheNewest(Seconds(jobs, lo), keep);
    NewestJobs(jobs, lo, keep);
    assert (files - Doomed(files.Keys, keep, {})).Keys == NamesOf(Seconds(jobs, last));
    forall i | last <= i < |jobs| ensures ArchiveName(jobs[i].secs) in NamesOf(Seconds(jobs, last)) {
      assert jobs[i].secs in Seconds(jobs, last);
    }
  }

  /** Retention over whole runs: after any number of backups at increasing seconds the directory holds
      exactly the last `keep` archives, each with its own content. */
  lemma {:induction false} RetentionHolds(jobs: seq<Job>, keep: nat)
    requires Increasing(jobs)
    ensures HoldsJobs(BackedUp(jobs, keep), jobs, FirstKept(|jobs|, keep))
    decreases |jobs|
  {
    hide HoldsJobs, Doomed, Written;
    if jobs == [] {
      EmptyDirectory(keep);
    } else {
      var n := |jobs| - 1;
      RetentionHolds(jobs[..n], keep);
      var prev := BackedUp(jobs[..n], keep);
      WritingAddsOne(prev, jobs, FirstKept(n, keep));
      PruningKeepsTheLast(Written(prev, jobs[n].secs, jobs[n].archive), jobs, FirstKept(n, keep), keep);
    }
  }

  lemma EmptyDirectory(keep: nat)
    ensures HoldsJobs(map[], [], FirstKept(0, keep))
  {
    assert Seconds([], FirstKept(0, keep)) == {};
  }
}
