/** Moving a vault to another machine by its recovery key, and restoring it from a backup
    (`vault/recovery.rs`, `vault/backup.rs`, `vault/session.rs`). */
module Moving {
  import opened Common
  import opened Symbolic
  import opened Keys
  import opened Db
  import opened Sessions
  import opened VaultRuns
  import opened VaultSafety
  import Backup
  import Recovery

  /** The outer key as the session holds it. */
  function KeyOf(raw: Recovery.RawKey): Key {
    seq(KEY_LEN, i requires 0 <= i < KEY_LEN => Plain(raw[i]))
  }

  lemma KeyOfInjective(a: Recovery.RawKey, b: Recovery.RawKey)
    requires KeyOf(a) == KeyOf(b)
    ensures a == b
  {
    forall i | 0 <= i < KEY_LEN ensures a[i] == b[i] {
      assert KeyOf(a)[i] == Plain(a[i]) && KeyOf(b)[i] == Plain(b[i]);
    }
  }

  /** The database file as one piece of data. */
  function DatabaseFile(t: Tables): Bytes {
    [Image(t)]
  }

  function ReadDatabase(file: Bytes): Option<Tables> {
    if |file| == 1 && file[0].Image? then Some(file[0].tables) else None
  }

  /** At `now` every secret of `contents` reads as stored, and nothing else is found. */
  ghost predicate ReadsAs(s: Sessions.State, contents: map<Bytes, Secret>, now: int) {
    forall id: Uuid ::
      && OpenSecret(s, id, Clock(now, now)).1
         == (if id in contents then Ok(contents[id].payload) else Err(VaultErr(NotFound(id))))
      && MetaFor(s, id, now).1
         == (if id in contents then Ok(contents[id].meta) else Err(VaultErr(NotFound(id))))
  }

  /** The tables of a vault, opened anywhere with its outer key, unlock for every genuine
      authenticator to the same inner key and the same contents. */
  lemma ReopensAnywhere(s: Sessions.State, g: Ideal, who: Authenticator, timeout: nat, now: int)
    requires Inv(s, g) && Genuine(who, g) && timeout > 0
    ensures OpenLocked(s.tables, Ok(g.roots.outer), timeout).Ok?
    ensures var (s2, r) := Unlock(OpenLocked(s.tables, Ok(g.roots.outer), timeout).value, who, now);
            r == Ok(()) && s2.inner == Some(g.roots.inner) && ReadsAs(s2, g.contents, now)
  {
    hide Inv, Unlock, OpenSecret, MetaFor, Genuine;
    RestartUnlocks(s, g, who, timeout, now);
    var s2 := Unlock(OpenLocked(s.tables, Ok(g.roots.outer), timeout).value, who, now).0;
    var g2 := g.(presented := g.roots.outer, timeout := timeout, deadline := Some(now + timeout));
    InvGivesMemory(s2, g2);
    forall id: Uuid
      ensures OpenSecret(s2, id, Clock(now, now)).1
              == (if id in g.contents then Ok(g.contents[id].payload) else Err(VaultErr(NotFound(id))))
      ensures MetaFor(s2, id, now).1
              == (if id in g.contents then Ok(g.contents[id].meta) else Err(VaultErr(NotFound(id))))
    {
      ReadsContents(s2, g2, id, Clock(now, now));
    }
  }

  lemma InvGivesMemory(s: Sessions.State, g: Ideal)
    requires Inv(s, g)
    ensures MemoryMatches(s, g)
  {
  }

  /** A vault moves with its recovery key: any retyping of the exported text gives back the outer key,
      and with it every genuine authenticator unlocks to the same contents. */
  lemma RecoveryKeyMovesTheVault(sha: seq<byte> -> Recovery.Digest, raw: Recovery.RawKey, edits: seq<Recovery.Edit>,
                                 s: Sessions.State, g: Ideal, who: Authenticator, timeout: nat, now: int)
    requires Inv(s, g) && g.roots.outer == KeyOf(raw) && Genuine(who, g) && timeout > 0
    requires Recovery.AllAllowed(Recovery.Encode(sha, raw), edits)
    ensures var typed := Recovery.ApplyAll(Recovery.Encode(sha, raw), edits);
            && Recovery.Decode(sha, typed) == Ok(raw)
            && OpenLocked(s.tables, Ok(KeyOf(raw)), timeout).Ok?
            && var (s2, r) := Unlock(OpenLocked(s.tables, Ok(KeyOf(raw)), timeout).value, who, now);
               r == Ok(()) && s2.inner == Some(g.roots.inner) && ReadsAs(s2, g.contents, now)
  {
    hide *;
    Recovery.RecoveryRoundTrip(sha, raw);
    Recovery.RetypingIsInvisible(sha, Recovery.Encode(sha, raw), edits);
    ReopensAnywhere(s, g, who, timeout, now);
  }

  /** A text that decodes to any other key opens a session that never unlocks, whatever is tried. */
  lemma OtherRecoveryKeyNeverUnlocks(sha: seq<byte> -> Recovery.Digest, raw: Recovery.RawKey, typed: string,
                                     s: Sessions.State, g: Ideal, timeout: nat, ops: seq<Op>)
    requires Inv(s, g) && g.roots.outer == KeyOf(raw)
    requires Recovery.Decode(sha, typed).Ok? && Recovery.Decode(sha, typed).value != raw
    requires OpenLocked(s.tables, Ok(KeyOf(Recovery.Decode(sha, typed).value)), timeout).Ok?
    requires ValidRun(OpenLocked(s.tables, Ok(KeyOf(Recovery.Decode(sha, typed).value)), timeout).value, ops)
    requires forall i | 0 <= i < |ops| :: !ops[i].RestartOp?
    ensures var s1 := OpenLocked(s.tables, Ok(KeyOf(Recovery.Decode(sha, typed).value)), timeout).value;
            && Run(s1, ops).inner == None
            && forall i | 0 <= i < |ops| && ops[i].UnlockOp? :: Outcomes(s1, ops)[i].Done? && Outcomes(s1, ops)[i].done.Err?
  {
    hide Recovery.Decode, MetaTableMatches, EnrollmentsStored, RowsMatch;
    var other := Recovery.Decode(sha, typed).value;
    if KeyOf(other) == KeyOf(raw) {
      KeyOfInjective(other, raw);
    }
    var s1 := OpenLocked(s.tables, Ok(KeyOf(other)), timeout).value;
    var g1 := g.(presented := KeyOf(other), deadline := None, timeout := timeout);
    WrongOuterKeyNeverUnlocks(s1, g1, ops);
  }

  /** A backup taken at any point of a run restores to the very database of that point, which reopens
      to the secrets and the enrollments that it held. */
  lemma BackupReopensTheSnapshot(s: Sessions.State, g: Ideal, nonce: Nonce, who: Authenticator, timeout: nat, now: int)
    requires Inv(s, g) && Genuine(who, g) && timeout > 0
    ensures var restored := Backup.Restore(Backup.Archive(DatabaseFile(s.tables), s.outer, nonce), s.outer);
            && restored.Ok? && ReadDatabase(restored.value) == Some(s.tables)
            && OpenLocked(ReadDatabase(restored.value).value, Ok(g.roots.outer), timeout).Ok?
            && var (s2, r) := Unlock(OpenLocked(ReadDatabase(restored.value).value, Ok(g.roots.outer), timeout).value, who, now);
               r == Ok(()) && s2.inner == Some(g.roots.inner) && ReadsAs(s2, g.contents, now)
    ensures var restored := Backup.Restore(Backup.Archive(DatabaseFile(s.tables), s.outer, nonce), s.outer);
            restored.Ok? && ReadDatabase(restored.value).Some?
            && LoadEnrollments(ReadDatabase(restored.value).value) == LoadEnrollments(s.tables)
  {
    hide Inv, Unlock, OpenLocked, Genuine, ReadsAs, LoadEnrollments, Backup.Archive, Backup.Restore;
    Backup.RestoreArchive(DatabaseFile(s.tables), s.outer, nonce);
    ReopensAnywhere(s, g, who, timeout, now);
  }

  /** Under any other outer key the archive restores nothing. */
  lemma BackupIsBoundToTheOuterKey(s: Sessions.State, nonce: Nonce, other: Key)
    ensures Backup.Restore(Backup.Archive(DatabaseFile(s.tables), s.outer, nonce), other).Ok? <==> other == s.outer
  {
    Backup.ArchiveBinds(DatabaseFile(s.tables), s.outer, nonce, other);
  }
}
