/** Whole runs of a vault: initialise once, then any sequence of operations and restarts.

    The sealed database refines an ideal vault that has no cryptography in it: a plain map from ids to
    secrets, the list of enrolled credentials with the answer each gave when it was enrolled, and a
    deadline. */
module VaultRuns {
  import opened Common
  import opened Symbolic
  import opened Keys
  import opened Envelope
  import opened Model
  import opened Db
  import opened Sessions
  import StableSort

  datatype Op =
    | EnrollOp(who: Authenticator, given: string, nonce: Nonce, clock: Clock)
    | UnlockOp(who: Authenticator, now: int)
    | LockOp
    | TickOp(now: int)
    | TouchOp(now: int)
    | ListOp(order: seq<Bytes>, lower: string -> string, now: int)
    | MetaForOp(id: Uuid, now: int)
    | OpenOp(id: Uuid, clock: Clock)
    | AddOp(meta: SecretMeta, payload: SecretPayload, rand: SealRandom, clock: Clock)
    | UpdateOp(meta: SecretMeta, payload: SecretPayload, rand: SealRandom, clock: Clock)
    | DeleteOp(id: Uuid)
    | RestartOp(unsealed: Key, timeout: nat)

  datatype Outcome =
    | Done(done: Result<(), SessionError>)
    | Ticked(state: LockState)
    | Listed(metas: Result<seq<SecretMeta>, SessionError>)
    | GotMeta(meta: Result<SecretMeta, SessionError>)
    | GotPayload(payload: Result<SecretPayload, SessionError>)

  /** A list query returns each row once, and a restart finds an initialised vault. */
  ghost predicate Possible(s: Sessions.State, op: Op) {
    && (op.ListOp? ==> RowOrder(s.tables, op.order))
    && (op.RestartOp? ==> OpenLocked(s.tables, Ok(op.unsealed), op.timeout).Ok?)
  }

  ghost function Step(s: Sessions.State, op: Op): (Sessions.State, Outcome)
    requires Possible(s, op)
  {
    match op
    case EnrollOp(who, given, nonce, clock) => var r := EnrollKey(s, who, given, nonce, clock); (r.0, Done(r.1))
    case UnlockOp(who, now) => var r := Unlock(s, who, now); (r.0, Done(r.1))
    case LockOp => (Lock(s), Done(Ok(())))
    case TickOp(now) => var r := Tick(s, now); (r.0, Ticked(r.1))
    case TouchOp(now) => (Touch(s, now), Done(Ok(())))
    case ListOp(order, lower, now) => var r := ListSecrets(s, order, lower, now); (r.0, Listed(r.1))
    case MetaForOp(id, now) => var r := MetaFor(s, id, now); (r.0, GotMeta(r.1))
    case OpenOp(id, clock) => var r := OpenSecret(s, id, clock); (r.0, GotPayload(r.1))
    case AddOp(meta, payload, rand, clock) => var r := Add(s, meta, payload, rand, clock); (r.0, Done(r.1))
    case UpdateOp(meta, payload, rand, clock) => var r := Update(s, meta, payload, rand, clock); (r.0, Done(r.1))
    case DeleteOp(id) => var r := Delete(s, id); (r.0, Done(r.1))
    case RestartOp(unsealed, timeout) => (OpenLocked(s.tables, Ok(unsealed), timeout).value, Done(Ok(())))
  }

  // ---- The ideal vault --------------------------------------------------------

  /** What initialisation fixed for good. */
  datatype Roots = Roots(
    inner: Key, outer: Key, kdfSalt: Bytes, hmacSalt: Bytes, verifyId: Uuid, verifyNonces: Nonces)

  datatype Credential = Credential(id: Bytes, secret: Bytes)

  datatype Secret = Secret(meta: SecretMeta, payload: SecretPayload)

  datatype Ideal = Ideal(
    roots: Roots,
    enrolled: seq<Credential>,
    contents: map<Bytes, Secret>,
    presented: Key,            // the outer key in memory since the last start
    deadline: Option<int>,     // present exactly while unlocked
    timeout: nat)

  function Ids(enrolled: seq<Credential>): (ids: seq<Bytes>)
    ensures |ids| == |enrolled| && forall i | 0 <= i < |ids| :: ids[i] == enrolled[i].id
  {
    seq(|enrolled|, i requires 0 <= i < |enrolled| => enrolled[i].id)
  }

  function Expire(g: Ideal, now: int): Ideal {
    if g.deadline.Some? && now >= g.deadline.value then g.(deadline := None) else g
  }

  function Renew(g: Ideal, now: int): Ideal {
    if g.deadline.Some? then g.(deadline := Some(now + g.timeout)) else g
  }

  /** The authenticator answers for some enrolled credential, and for the first such credential it
      gives the answer that was given when the credential was enrolled. */
  predicate Proves(g: Ideal, who: Authenticator) {
    match FirstAnswer(who, Ids(g.enrolled), g.roots.hmacSalt)
    case Err(_) => false
    case Ok((id, secret)) => Credential(id, secret) in g.enrolled
  }

  function IdealUnlock(g: Ideal, who: Authenticator, now: int): (Ideal, Result<(), SessionError>) {
    match FirstAnswer(who, Ids(g.enrolled), g.roots.hmacSalt)
    case Err(e) => (g, Err(ProviderErr(e)))
    case Ok(_) =>
      if Proves(g, who) && g.presented == g.roots.outer
      then (g.(deadline := Some(now + g.timeout)), Ok(()))
      else (g, Err(VerificationFailed))
  }

  function IdealEnroll(g: Ideal, who: Authenticator, clock: Clock): (Ideal, Result<(), SessionError>) {
    var g1 := Expire(g, clock.check);
    if g1.deadline.None? then (g1, Err(VaultLocked))
    else
      match who.provision(Ids(g1.enrolled))
      case Err(e) => (g1, Err(ProviderErr(e)))
      case Ok(id) =>
        if id in Ids(g1.enrolled) then (g1, Err(AlreadyEnrolled))
        else
          match who.answer(id, g1.roots.hmacSalt)
          case Err(e) => (g1, Err(ProviderErr(e)))
          case Ok(secret) => (Renew(g1.(enrolled := g1.enrolled + [Credential(id, secret)]), clock.renew), Ok(()))
  }

  function MetasOf(contents: map<Bytes, Secret>, order: seq<Bytes>): seq<SecretMeta>
    requires forall i | 0 <= i < |order| :: order[i] in contents
  {
    seq(|order|, i requires 0 <= i < |order| => contents[order[i]].meta)
  }

  ghost predicate IdealPossible(g: Ideal, op: Op) {
    op.ListOp? ==>
      && (forall i | 0 <= i < |op.order| :: op.order[i] in g.contents)
      && (forall k | k in g.contents :: k in op.order)
      && Distinct(op.order)
  }

  /** Storing into the plain map: `add` wants a new id, `update` an existing one. */
  function IdealStore(g: Ideal, meta: SecretMeta, payload: SecretPayload, isUpdate: bool, clock: Clock): (Ideal, Result<(), SessionError>) {
    var g1 := Expire(g, clock.check);
    if g1.deadline.None? then (g1, Err(VaultLocked))
    else if isUpdate && meta.id !in g1.contents then (g1, Err(VaultErr(NotFound(meta.id))))
    else if !isUpdate && meta.id in g1.contents then (g1, Err(VaultErr(Constraint)))
    else (Renew(g1.(contents := g1.contents[meta.id := Secret(meta, payload)]), clock.renew), Ok(()))
  }

  ghost function IdealStep(g: Ideal, op: Op): (Ideal, Outcome)
    requires IdealPossible(g, op)
  {
    match op
    case EnrollOp(who, _, _, clock) => var r := IdealEnroll(g, who, clock); (r.0, Done(r.1))
    case UnlockOp(who, now) => var r := IdealUnlock(g, who, now); (r.0, Done(r.1))
    case LockOp => (g.(deadline := None), Done(Ok(())))
    case TickOp(now) =>
      var g1 := Expire(g, now);
      (g1, Ticked(if g1.deadline.Some? then Unlocked(g1.deadline.value - now) else Locked))
    case TouchOp(now) => (Renew(g, now), Done(Ok(())))
    case ListOp(order, lower, now) =>
      var g1 := Expire(g, now);
      (g1, Listed(if g1.deadline.None? then Err(VaultLocked)
                  else Ok(StableSort.Sort(MetasOf(g1.contents, order), ByName(lower)))))
    case MetaForOp(id, now) =>
      if id !in g.contents then (g, GotMeta(Err(VaultErr(NotFound(id)))))
      else
        var g1 := Expire(g, now);
        (g1, GotMeta(if g1.deadline.None? then Err(VaultLocked) else Ok(g1.contents[id].meta)))
    case OpenOp(id, clock) =>
      if id !in g.contents then (g, GotPayload(Err(VaultErr(NotFound(id)))))
      else
        var g1 := Expire(g, clock.check);
        if g1.deadline.None? then (g1, GotPayload(Err(VaultLocked)))
        else (Renew(g1, clock.renew), GotPayload(Ok(g1.contents[id].payload)))
    case AddOp(meta, payload, _, clock) => var r := IdealStore(g, meta, payload, false, clock); (r.0, Done(r.1))
    case UpdateOp(meta, payload, _, clock) => var r := IdealStore(g, meta, payload, true, clock); (r.0, Done(r.1))
    case DeleteOp(id) =>
      if id !in g.contents then (g, Done(Err(VaultErr(NotFound(id)))))
      else (g.(contents := g.contents - {id}), Done(Ok(())))
    case RestartOp(unsealed, timeout) =>
      (g.(presented := unsealed, deadline := None, timeout := timeout), Done(Ok(())))
  }

  // ---- The invariant that ties the database and the memory to the ideal vault --

  /** The stored record of a credential: the vault's one inner key, wrapped under the key derived
      from the answer that the credential gave. */
  ghost predicate Wraps(e: Enrollment, c: Credential, roots: Roots) {
    && e.credentialId == c.id
    && exists nonce: Nonce :: e.wrapBlob == WrapKey(DeriveWrapKey(c.secret, roots.kdfSalt), roots.inner, nonce)
  }

  ghost predicate EnrollmentsMatch(es: seq<Enrollment>, enrolled: seq<Credential>, roots: Roots) {
    && |es| == |enrolled|
    && Distinct(Ids(enrolled))
    && forall i | 0 <= i < |es| :: Wraps(es[i], enrolled[i], roots)
  }

  ghost predicate Holds(row: Row, id: Bytes, secret: Secret, roots: Roots) {
    && |id| == 16 && |row.metaId| == 16
    && secret.meta.id == id
    && (exists n: Nonces :: row.metaBlob == SealMeta(row.metaId, roots.inner, roots.outer, n, secret.meta))
    && (exists n: Nonces :: row.payloadBlob == SealPayload(id, roots.inner, roots.outer, n, secret.payload))
  }

  ghost predicate MetaTableMatches(t: Tables, roots: Roots) {
    && KdfSalt in t.meta && t.meta[KdfSalt] == EncodeHex(roots.kdfSalt)
    && HmacSalt in t.meta && t.meta[HmacSalt] == EncodeHex(roots.hmacSalt)
    && VerifyBlob in t.meta
    && t.meta[VerifyBlob] == EncodeHex(SealVerification(roots.verifyId, roots.inner, roots.outer, roots.verifyNonces.n1, roots.verifyNonces.n2))
    && VerifyId in t.meta && t.meta[VerifyId] == UuidText(roots.verifyId)
  }

  ghost predicate EnrollmentsStored(t: Tables, enrolled: seq<Credential>, roots: Roots) {
    && Enrollments in t.meta
    && exists es :: t.meta[Enrollments] == EncodeHex(ToCbor(EnrollmentsWire(es))) && EnrollmentsMatch(es, enrolled, roots)
  }

  ghost predicate RowsMatch(rows: map<Bytes, Row>, contents: map<Bytes, Secret>, roots: Roots) {
    && rows.Keys == contents.Keys
    && forall id | id in rows :: Holds(rows[id], id, contents[id], roots)
  }

  ghost predicate MemoryMatches(s: Sessions.State, g: Ideal) {
    && s.outer == g.presented && s.deadline == g.deadline && s.timeout == g.timeout
    && (g.deadline.Some? ==> s.inner == Some(g.roots.inner) && g.presented == g.roots.outer)
    && (g.deadline.None? ==> s.inner == None)
  }

  ghost predicate Inv(s: Sessions.State, g: Ideal) {
    && MetaTableMatches(s.tables, g.roots)
    && EnrollmentsStored(s.tables, g.enrolled, g.roots)
    && RowsMatch(s.tables.rows, g.contents, g.roots)
    && MemoryMatches(s, g)
  }

  ghost function LoadedFor(t: Tables, g: Ideal): (es: seq<Enrollment>)
    requires EnrollmentsStored(t, g.enrolled, g.roots)
    ensures t.meta[Enrollments] == EncodeHex(ToCbor(EnrollmentsWire(es))) && EnrollmentsMatch(es, g.enrolled, g.roots)
  {
    var es :| t.meta[Enrollments] == EncodeHex(ToCbor(EnrollmentsWire(es))) && EnrollmentsMatch(es, g.enrolled, g.roots);
    es
  }

  lemma SaltsLoad(t: Tables, g: Ideal)
    requires MetaTableMatches(t, g.roots)
    ensures RequireMetaBytes(t, HmacSalt) == Ok(g.roots.hmacSalt)
    ensures RequireMetaBytes(t, KdfSalt) == Ok(g.roots.kdfSalt)
  {
    MetaBytesRoundTrip(t, HmacSalt, g.roots.hmacSalt);
    MetaBytesRoundTrip(t, KdfSalt, g.roots.kdfSalt);
  }

  lemma {:induction false} FindByIndex(es: seq<Enrollment>, i: nat)
    requires i < |es| && forall j | 0 <= j < i :: es[j].credentialId != es[i].credentialId
    ensures FindEnrollment(es, es[i].credentialId) == Some(es[i])
    decreases i
  {
    if i > 0 {
      FindByIndex(es[1..], i - 1);
    }
  }

  lemma {:induction false} FirstAnswerNamesOne(a: Authenticator, ids: seq<Bytes>, salt: Bytes) returns (i: nat)
    requires FirstAnswer(a, ids, salt).Ok?
    ensures i < |ids| && FirstAnswer(a, ids, salt).value.0 == ids[i]
    ensures a.answer(ids[i], salt) == Ok(FirstAnswer(a, ids, salt).value.1)
    decreases |ids|
  {
    if a.answer(ids[0], salt).Ok? {
      i := 0;
    } else {
      var k := FirstAnswerNamesOne(a, ids[1..], salt);
      i := k + 1;
    }
  }

  /** Verification admits the inner key exactly under the outer key of initialisation. */
  lemma AdmitChecksTheOuterKey(s: Sessions.State, g: Ideal, now: int)
    requires Inv(s, g)
    ensures Admit(s, g.roots.inner, now)
         == if g.presented == g.roots.outer
            then (s.(inner := Some(g.roots.inner), deadline := Some(now + s.timeout)), Ok(()))
            else (s, Err(VerificationFailed))
  {
    hide EncodeHex, UuidText, ParseUuid, SealVerification, VerifyKeys, EnrollmentsStored, RowsMatch, RequireMetaBytes;
    var r := g.roots;
    var blob := SealVerification(r.verifyId, r.inner, r.outer, r.verifyNonces.n1, r.verifyNonces.n2);
    MetaBytesRoundTrip(s.tables, VerifyBlob, blob);
    UuidRoundTrip(r.verifyId);
    VerificationIsExact(r.verifyId, r.inner, r.outer, r.verifyNonces.n1, r.verifyNonces.n2, r.inner, s.outer);
  }

  lemma ProvesBySecret(g: Ideal, who: Authenticator, i: nat)
    requires Distinct(Ids(g.enrolled)) && i < |g.enrolled|
    requires FirstAnswer(who, Ids(g.enrolled), g.roots.hmacSalt).Ok?
    requires FirstAnswer(who, Ids(g.enrolled), g.roots.hmacSalt).value.0 == g.enrolled[i].id
    ensures Proves(g, who) <==> FirstAnswer(who, Ids(g.enrolled), g.roots.hmacSalt).value.1 == g.enrolled[i].secret
  {
    hide FirstAnswer;
    var found := FirstAnswer(who, Ids(g.enrolled), g.roots.hmacSalt).value;
    if Proves(g, who) {
      var j :| 0 <= j < |g.enrolled| && g.enrolled[j] == Credential(found.0, found.1);
      assert Ids(g.enrolled)[j] == Ids(g.enrolled)[i];
      assert j == i;
    }
    if found.1 == g.enrolled[i].secret {
      assert g.enrolled[i] == Credential(found.0, found.1);
    }
  }

  lemma UnlockRefines(s: Sessions.State, g: Ideal, who: Authenticator, now: int)
    requires Inv(s, g)
    ensures Unlock(s, who, now).1 == IdealUnlock(g, who, now).1
    ensures Inv(Unlock(s, who, now).0, IdealUnlock(g, who, now).0)
  {
    hide WrapKey, UnwrapKey, DeriveWrapKey, SealVerification, VerifyKeys, EncodeHex, UuidText, ParseUuid;
    SaltsLoad(s.tables, g);
    var es := LoadedFor(s.tables, g);
    EnrollmentsPersist(s.tables, es);
    assert CredentialIds(es) == Ids(g.enrolled);
    var found := FirstAnswer(who, Ids(g.enrolled), g.roots.hmacSalt);
    if found.Ok? {
      var i := FirstAnswerNamesOne(who, Ids(g.enrolled), g.roots.hmacSalt);
      FindByIndex(es, i);
      assert Wraps(es[i], g.enrolled[i], g.roots);
      var recorded := DeriveWrapKey(g.enrolled[i].secret, g.roots.kdfSalt);
      var nonce: Nonce :| es[i].wrapBlob == WrapKey(recorded, g.roots.inner, nonce);
      var derived := DeriveWrapKey(found.value.1, g.roots.kdfSalt);
      WrapBinds(recorded, g.roots.inner, nonce, derived);
      ProvesBySecret(g, who, i);
      if derived == recorded {
        WrapKeyInjective(found.value.1, g.roots.kdfSalt, g.enrolled[i].secret, g.roots.kdfSalt);
      }
      AdmitChecksTheOuterKey(s, g, now);
    }
  }

  lemma TickRefines(s: Sessions.State, g: Ideal, now: int)
    requires Inv(s, g)
    ensures Inv(Tick(s, now).0, Expire(g, now))
    ensures Tick(s, now).0.tables == s.tables
    ensures Tick(s, now).1 == var g1 := Expire(g, now); if g1.deadline.Some? then Unlocked(g1.deadline.value - now) else Locked
    ensures Tick(s, now).0.inner.Some? <==> Expire(g, now).deadline.Some?
  {
  }

  lemma EnrollRefines(s: Sessions.State, g: Ideal, who: Authenticator, given: string, nonce: Nonce, clock: Clock)
    requires Inv(s, g)
    ensures EnrollKey(s, who, given, nonce, clock).1 == IdealEnroll(g, who, clock).1
    ensures Inv(EnrollKey(s, who, given, nonce, clock).0, IdealEnroll(g, who, clock).0)
  {
    hide WrapKey, DeriveWrapKey, SealVerification, EncodeHex, UuidText, SealMeta, SealPayload;
    TickRefines(s, g, clock.check);
    var s1, g1 := Tick(s, clock.check).0, Expire(g, clock.check);
    if g1.deadline.Some? {
      SaltsLoad(s1.tables, g1);
      var es := LoadedFor(s1.tables, g1);
      EnrollmentsPersist(s1.tables, es);
      assert CredentialIds(es) == Ids(g1.enrolled);
      var r := IdealEnroll(g, who, clock);
      if r.1.Ok? {
        var id := who.provision(Ids(g1.enrolled)).value;
        var secret := who.answer(id, g1.roots.hmacSalt).value;
        var e := WrapFor(who, id, g1.roots.hmacSalt, g1.roots.kdfSalt, g1.roots.inner, nonce, EnrollmentName(given, |es|)).value;
        assert Wraps(e, Credential(id, secret), g1.roots);
        EnrollmentsExtend(es, g1.enrolled, g1.roots, e, Credential(id, secret));
        var t' := SaveEnrollments(s1.tables, es + [e]);
        assert EnrollmentsStored(t', r.0.enrolled, r.0.roots);
      }
    }
  }

  lemma EnrollmentsExtend(es: seq<Enrollment>, enrolled: seq<Credential>, roots: Roots, e: Enrollment, c: Credential)
    requires EnrollmentsMatch(es, enrolled, roots) && Wraps(e, c, roots) && c.id !in Ids(enrolled)
    ensures EnrollmentsMatch(es + [e], enrolled + [c], roots)
  {
    var ids := Ids(enrolled + [c]);
    assert ids == Ids(enrolled) + [c.id];
    assert Distinct(ids);
  }

  lemma RowOpens(s: Sessions.State, g: Ideal, id: Uuid)
    requires RowsMatch(s.tables.rows, g.contents, g.roots) && id in s.tables.rows
    ensures var row := RowOf(s.tables, id);
            OpenMeta(row.metaId, row.id, g.roots.inner, g.roots.outer, row.metaBlob) == Ok(g.contents[id].meta)
    ensures OpenPayload(id, g.roots.inner, g.roots.outer, s.tables.rows[id].payloadBlob) == Ok(g.contents[id].payload)
  {
    var row, secret := s.tables.rows[id], g.contents[id];
    assert Holds(row, id, secret, g.roots);
    var n: Nonces :| row.metaBlob == SealMeta(row.metaId, g.roots.inner, g.roots.outer, n, secret.meta);
    MetaOpens(row.metaId, g.roots.inner, g.roots.outer, n, secret.meta);
    var p: Nonces :| row.payloadBlob == SealPayload(id, g.roots.inner, g.roots.outer, p, secret.payload);
    PayloadOpens(id, g.roots.inner, g.roots.outer, p, secret.payload);
  }

  lemma FirstRowOpens(s: Sessions.State, g: Ideal, order: seq<Bytes>)
    requires RowsMatch(s.tables.rows, g.contents, g.roots) && order != [] && order[0] in s.tables.rows
    ensures var row := RowOf(s.tables, order[0]);
            OpenMeta(row.metaId, row.id, g.roots.inner, g.roots.outer, row.metaBlob) == Ok(g.contents[order[0]].meta)
  {
    hide OpenMeta, SealMeta, SealPayload;
    assert Holds(s.tables.rows[order[0]], order[0], g.contents[order[0]], g.roots);
    RowOpens(s, g, order[0]);
  }

  lemma {:induction false} RowsOpen(s: Sessions.State, g: Ideal, order: seq<Bytes>)
    requires RowsMatch(s.tables.rows, g.contents, g.roots) && forall i | 0 <= i < |order| :: order[i] in s.tables.rows
    ensures OpenRows(RowsOf(s.tables, order), g.roots.inner, g.roots.outer) == Ok(MetasOf(g.contents, order))
    decreases |order|
  {
    hide OpenMeta, Holds;
    var rows, inner, outer := RowsOf(s.tables, order), g.roots.inner, g.roots.outer;
    if order == [] {
      assert rows == [] && MetasOf(g.contents, order) == [];
    } else {
      FirstRowOpens(s, g, order);
      RowsOpen(s, g, order[1..]);
      assert rows[0] == RowOf(s.tables, order[0]) && rows[1..] == RowsOf(s.tables, order[1..]);
      assert OpenRows(rows, inner, outer) == Prepended([g.contents[order[0]].meta], OpenRows(rows[1..], inner, outer));
      assert MetasOf(g.contents, order) == [g.contents[order[0]].meta] + MetasOf(g.contents, order[1..]);
    }
  }

  lemma StoreKeeps(s: Sessions.State, g: Ideal, meta: SecretMeta, payload: SecretPayload, rand: SealRandom)
    requires Inv(s, g) && s.inner.Some?
    ensures Inv(WithRow(s, meta, payload, rand), g.(contents := g.contents[meta.id := Secret(meta, payload)]))
  {
    hide SealMeta, SealPayload, EncodeHex, UuidText, SealVerification, Wraps;
    var row := SealedRow(meta, payload, g.roots.inner, g.roots.outer, rand);
    assert row.metaBlob == SealMeta(row.metaId, g.roots.inner, g.roots.outer, rand.forMeta, meta);
    assert row.payloadBlob == SealPayload(meta.id, g.roots.inner, g.roots.outer, rand.forPayload, payload);
    assert Holds(row, meta.id, Secret(meta, payload), g.roots);
  }

  lemma PossibleIsIdeal(s: Sessions.State, g: Ideal, op: Op)
    requires Inv(s, g)
    ensures Possible(s, op) <==> IdealPossible(g, op)
  {
  }

  lemma ListRefines(s: Sessions.State, g: Ideal, op: Op)
    requires Inv(s, g) && op.ListOp? && IdealPossible(g, op) && Possible(s, op)
    ensures Step(s, op).1 == IdealStep(g, op).1 && Inv(Step(s, op).0, IdealStep(g, op).0)
  {
    hide OpenRows, EnrollmentsStored, MetaTableMatches, Holds, StableSort.Sort;
    TickRefines(s, g, op.now);
    RowsOpen(Tick(s, op.now).0, Expire(g, op.now), op.order);
  }

  lemma ReadRefines(s: Sessions.State, g: Ideal, op: Op)
    requires Inv(s, g) && (op.MetaForOp? || op.OpenOp?)
    ensures Step(s, op).1 == IdealStep(g, op).1 && Inv(Step(s, op).0, IdealStep(g, op).0)
  {
    hide OpenMeta, OpenPayload, EnrollmentsStored, MetaTableMatches, Holds;
    var now := if op.MetaForOp? then op.now else op.clock.check;
    TickRefines(s, g, now);
    if op.id in s.tables.rows {
      RowOpens(Tick(s, now).0, Expire(g, now), op.id);
    }
  }

  lemma StoreRefines(s: Sessions.State, g: Ideal, op: Op)
    requires Inv(s, g) && (op.AddOp? || op.UpdateOp?)
    ensures Step(s, op).1 == IdealStep(g, op).1 && Inv(Step(s, op).0, IdealStep(g, op).0)
  {
    hide SealedRow, EnrollmentsStored, MetaTableMatches, Holds;
    var s1, g1 := Tick(s, op.clock.check).0, Expire(g, op.clock.check);
    TickRefines(s, g, op.clock.check);
    if s1.inner.Some? {
      StoreKeeps(s1, g1, op.meta, op.payload, op.rand);
    }
  }

  lemma DeleteRefines(s: Sessions.State, g: Ideal, id: Uuid)
    requires Inv(s, g)
    ensures Step(s, DeleteOp(id)).1 == IdealStep(g, DeleteOp(id)).1
    ensures Inv(Step(s, DeleteOp(id)).0, IdealStep(g, DeleteOp(id)).0)
  {
    hide Holds, EnrollmentsMatch, EncodeHex, SealVerification, UuidText;
  }

  lemma MemoryRefines(s: Sessions.State, g: Ideal, op: Op)
    requires Inv(s, g) && (op.LockOp? || op.TouchOp? || op.RestartOp?) && Possible(s, op)
    ensures Step(s, op).1 == IdealStep(g, op).1 && Inv(Step(s, op).0, IdealStep(g, op).0)
  {
    hide MetaTableMatches, EnrollmentsStored, RowsMatch;
  }

  /** Every operation does to the sealed vault what it does to the ideal one, and returns the same
      result. */
  lemma StepRefines(s: Sessions.State, g: Ideal, op: Op)
    requires Inv(s, g) && Possible(s, op)
    ensures IdealPossible(g, op)
    ensures Step(s, op).1 == IdealStep(g, op).1
    ensures Inv(Step(s, op).0, IdealStep(g, op).0)
  {
    PossibleIsIdeal(s, g, op);
    match op {
      case EnrollOp(who, given, nonce, clock) =>
        hide EnrollKey, IdealEnroll, Inv;
        EnrollRefines(s, g, who, given, nonce, clock);
      case UnlockOp(who, now) =>
        hide Unlock, IdealUnlock, Inv;
        UnlockRefines(s, g, who, now);
      case TickOp(now) =>
        hide Inv;
        TickRefines(s, g, now);
      case ListOp(_, _, _) =>
        hide *;
        ListRefines(s, g, op);
      case MetaForOp(_, _) =>
        hide *;
        ReadRefines(s, g, op);
      case OpenOp(_, _) =>
        hide *;
        ReadRefines(s, g, op);
      case AddOp(_, _, _, _) =>
        hide *;
        StoreRefines(s, g, op);
      case UpdateOp(_, _, _, _) =>
        hide *;
        StoreRefines(s, g, op);
      case DeleteOp(id) =>
        hide *;
        DeleteRefines(s, g, id);
      case _ =>
        hide *;
        MemoryRefines(s, g, op);
    }
  }
}
