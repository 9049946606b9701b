/** What every run of a vault guarantees, derived from the refinement in `VaultRuns`. */
module VaultSafety {
  import opened Common
  import opened Symbolic
  import opened Keys
  import opened Envelope
  import opened Model
  import opened Db
  import opened Sessions
  import opened VaultRuns
  import Lex
  import StableSort

  // ---- Runs -------------------------------------------------------------------

  ghost predicate ValidRun(s: Sessions.State, ops: seq<Op>)
    decreases |ops|
  {
    ops != [] ==> Possible(s, ops[0]) && ValidRun(Step(s, ops[0]).0, ops[1..])
  }

  ghost function Run(s: Sessions.State, ops: seq<Op>): Sessions.State
    requires ValidRun(s, ops)
    decreases |ops|
  {
    if ops == [] then s else Run(Step(s, ops[0]).0, ops[1..])
  }

  ghost function Outcomes(s: Sessions.State, ops: seq<Op>): (r: seq<Outcome>)
    requires ValidRun(s, ops)
    ensures |r| == |ops|
    decreases |ops|
  {
    if ops == [] then [] else [Step(s, ops[0]).1] + Outcomes(Step(s, ops[0]).0, ops[1..])
  }

  ghost predicate IdealValidRun(g: Ideal, ops: seq<Op>)
    decreases |ops|
  {
    ops != [] ==> IdealPossible(g, ops[0]) && IdealValidRun(IdealStep(g, ops[0]).0, ops[1..])
  }

  ghost function IdealRun(g: Ideal, ops: seq<Op>): Ideal
    requires IdealValidRun(g, ops)
    decreases |ops|
  {
    if ops == [] then g else IdealRun(IdealStep(g, ops[0]).0, ops[1..])
  }

  ghost function IdealOutcomes(g: Ideal, ops: seq<Op>): (r: seq<Outcome>)
    requires IdealValidRun(g, ops)
    ensures |r| == |ops|
    decreases |ops|
  {
    if ops == [] then [] else [IdealStep(g, ops[0]).1] + IdealOutcomes(IdealStep(g, ops[0]).0, ops[1..])
  }

  /** The ideal vault that a successful initialisation creates. */
  ghost function Created(outer: Key, a: Authenticator, rand: InitRandom, timeout: nat, now: int): Ideal
    requires a.provision([]).Ok? && a.answer(a.provision([]).value, rand.hmacSalt).Ok?
  {
    var id := a.provision([]).value;
    Ideal(Roots(rand.innerKek, outer, rand.kdfSalt, rand.hmacSalt, rand.verifyId, rand.verifyNonces),
          [Credential(id, a.answer(id, rand.hmacSalt).value)], map[], outer, Some(now + timeout), timeout)
  }

  /** Initialising a new database establishes the invariant, or fails and writes nothing. */
  lemma InitializeEstablishes(t: Tables, outer: Result<Key, ProviderError>, a: Authenticator, rand: InitRandom,
                              timeout: nat, now: int)
    requires t.rows == map[]
    ensures var r := Initialize(t, outer, a, rand, timeout, now);
            && (r.1.Err? ==> r.0 == t)
            && (r.1.Ok? <==> KdfSalt !in t.meta && outer.Ok? && a.provision([]).Ok? && a.answer(a.provision([]).value, rand.hmacSalt).Ok?)
            && (r.1.Ok? ==> r.1.value.tables == r.0 && Inv(r.1.value, Created(outer.value, a, rand, timeout, now)))
  {
    hide EncodeHex, UuidText, SealVerification, WrapKey, DeriveWrapKey;
    var r := Initialize(t, outer, a, rand, timeout, now);
    if r.1.Ok? {
      var g := Created(outer.value, a, rand, timeout, now);
      var e := WrapFor(a, g.enrolled[0].id, rand.hmacSalt, rand.kdfSalt, rand.innerKek, rand.wrapNonce, "primary").value;
      assert Wraps(e, g.enrolled[0], g.roots);
      assert EnrollmentsMatch([e], g.enrolled, g.roots);
      assert EnrollmentsStored(r.0, g.enrolled, g.roots);
    }
  }

  /** A database is initialised once; before, it cannot be opened, and from then on it opens locked. A
      failure names what failed first. */
  lemma InitializedOnce(t: Tables, outer: Result<Key, ProviderError>, a: Authenticator, rand: InitRandom, timeout: nat, now: int,
                        unsealed: Result<Key, ProviderError>)
    ensures var (t', r) := Initialize(t, outer, a, rand, timeout, now);
            && (r == Err(AlreadyInitialized) <==> KdfSalt in t.meta)
            && (OpenLocked(t, unsealed, timeout) == Err(VaultErr(NotInitialized)) <==> KdfSalt !in t.meta)
            && (KdfSalt !in t.meta && r.Err? ==>
                  r.error == ProviderErr(if outer.Err? then outer.error
                                         else if a.provision([]).Err? then a.provision([]).error
                                         else a.answer(a.provision([]).value, rand.hmacSalt).error))
            && (r.Ok? ==>
                  && KdfSalt in t'.meta && Initialize(t', outer, a, rand, timeout, now) == (t', Err(AlreadyInitialized))
                  && OpenLocked(t', unsealed, timeout)
                     == if unsealed.Ok? then Ok(Sessions.State(t', unsealed.value, None, None, timeout)) else Err(ProviderErr(unsealed.error)))
  {
    hide EncodeHex, UuidText, SealVerification, WrapKey, DeriveWrapKey;
  }

  /** Over whole runs the sealed vault is the ideal one: same results, and the invariant holds at
      the end. */
  lemma {:induction false} RunRefines(s: Sessions.State, g: Ideal, ops: seq<Op>)
    requires Inv(s, g) && ValidRun(s, ops)
    ensures IdealValidRun(g, ops)
    ensures Outcomes(s, ops) == IdealOutcomes(g, ops)
    ensures Inv(Run(s, ops), IdealRun(g, ops))
    decreases |ops|
  {
    hide Inv, Step, IdealStep, Possible, IdealPossible;
    if ops != [] {
      StepRefines(s, g, ops[0]);
      RunRefines(Step(s, ops[0]).0, IdealStep(g, ops[0]).0, ops[1..]);
    }
  }

  lemma {:induction false} RunConcat(s: Sessions.State, a: seq<Op>, b: seq<Op>)
    requires ValidRun(s, a + b)
    ensures ValidRun(s, a) && ValidRun(Run(s, a), b) && Run(s, a + b) == Run(Run(s, a), b)
    ensures Outcomes(s, a + b) == Outcomes(s, a) + Outcomes(Run(s, a), b)
    decreases |a|
  {
    hide Step, Possible;
    if a == [] {
      assert a + b == b;
    } else {
      assert (a + b)[1..] == a[1..] + b;
      RunConcat(Step(s, a[0]).0, a[1..], b);
    }
  }

  // ---- Keys and deadline in every reachable state ------------------------------

  /** In every reachable session the inner key is present exactly when a deadline is; when present
      it is the key of initialisation, the outer key is too, and the pair opens the verification blob
      and no other pair does. */
  lemma ReachableKeys(s: Sessions.State, g: Ideal, ops: seq<Op>)
    requires Inv(s, g) && ValidRun(s, ops)
    ensures var s' := Run(s, ops);
            && (s'.inner.Some? <==> s'.deadline.Some?)
            && (s'.inner.Some? ==> s'.inner.value == g.roots.inner && s'.outer == g.roots.outer)
    ensures var t := Run(s, ops).tables;
            && VerifyId in t.meta && ParseUuid(t.meta[VerifyId]).Some? && RequireMetaBytes(t, VerifyBlob).Ok?
            && forall inner: Key, outer: Key ::
                 VerifyKeys(ParseUuid(t.meta[VerifyId]).value, inner, outer, RequireMetaBytes(t, VerifyBlob).value) == Ok(true)
                 <==> inner == g.roots.inner && outer == g.roots.outer
  {
    RunRefines(s, g, ops);
    EnrolledOnlyGrows(g, ops);
    var s', r := Run(s, ops), g.roots;
    var blob := SealVerification(r.verifyId, r.inner, r.outer, r.verifyNonces.n1, r.verifyNonces.n2);
    MetaBytesRoundTrip(s'.tables, VerifyBlob, blob);
    UuidRoundTrip(r.verifyId);
    forall inner: Key, outer: Key
      ensures VerifyKeys(r.verifyId, inner, outer, blob) == Ok(true) <==> inner == r.inner && outer == r.outer
    {
      VerificationIsExact(r.verifyId, r.inner, r.outer, r.verifyNonces.n1, r.verifyNonces.n2, inner, outer);
    }
  }

  /** A refused unlock leaves the whole session as it was, whatever state it was in. */
  lemma FailedUnlockChangesNothing(s: Sessions.State, who: Authenticator, now: int)
    ensures Unlock(s, who, now).1.Err? ==> Unlock(s, who, now).0 == s
    ensures Unlock(s, who, now).1.Ok? ==>
              var s' := Unlock(s, who, now).0;
              s' == s.(inner := s'.inner, deadline := Some(now + s.timeout)) && s'.inner.Some?
  {
    hide UnwrapKey, VerifyKeys, RequireMetaBytes, LoadEnrollments, FindEnrollment, FirstAnswer, ParseUuid, DeriveWrapKey, CredentialIds;
  }

  /** A read-only look at the state gives the answer that a tick would give at the same instant. */
  lemma ObservingIsTicking(s: Sessions.State, now: int)
    ensures Observe(s, now) == Tick(s, now).1
    ensures Observe(s, now).Unlocked? <==> Tick(s, now).0.inner.Some?
  {
  }

  /** The remaining time that is shown is exactly how long the vault stays unlocked if nothing is done. */
  lemma RemainingIsExact(s: Sessions.State, now: int, later: int)
    requires Observe(s, now).Unlocked? && now <= later
    ensures Observe(s, later).Unlocked? <==> later < now + Observe(s, now).remaining
    ensures Tick(s, later).0.inner.Some? <==> later < now + Observe(s, now).remaining
  {
  }

  /** A touch does not tick first. It makes a vault usable again that a tick would have locked at the same
      instant, exactly when the key of an expired window is still in memory. */
  lemma TouchRevivesExactly(s: Sessions.State, now: int)
    ensures Observe(s, now) == Locked && Observe(Touch(s, now), now).Unlocked?
       <==> s.inner.Some? && (s.deadline.None? || s.deadline.value <= now) && s.timeout > 0
    ensures Observe(Touch(Tick(s, now).0, now), now).Unlocked? ==> Observe(s, now).Unlocked?
  {
  }

  // ---- The list of enrolled keys -------------------------------------------------

  /** A new key is stored after the ones that are there, under its own name and credential. */
  lemma EnrollmentIsAppended(s: Sessions.State, who: Authenticator, given: string, nonce: Nonce, clock: Clock)
    requires EnrollKey(s, who, given, nonce, clock).1.Ok?
    ensures LoadEnrollments(s.tables).Ok? && LoadEnrollments(EnrollKey(s, who, given, nonce, clock).0.tables).Ok?
    ensures var (es, es') := (LoadEnrollments(s.tables).value, LoadEnrollments(EnrollKey(s, who, given, nonce, clock).0.tables).value);
            && |es'| == |es| + 1 && es'[..|es|] == es
            && es'[|es|].name == EnrollmentName(given, |es|)
            && who.provision(CredentialIds(es)) == Ok(es'[|es|].credentialId)
  {
    hide RequireMetaBytes, EnrollmentName, WrapKey, DeriveWrapKey, CredentialIds, EnrollmentsWire, EncodeHex, LoadEnrollments;
    var es := LoadEnrollments(s.tables).value;
    var credential := who.provision(CredentialIds(es)).value;
    var hmacSalt, kdfSalt := RequireMetaBytes(s.tables, HmacSalt).value, RequireMetaBytes(s.tables, KdfSalt).value;
    var e := WrapFor(who, credential, hmacSalt, kdfSalt, Tick(s, clock.check).0.inner.value, nonce, EnrollmentName(given, |es|)).value;
    EnrollmentsPersist(EnrollKey(s, who, given, nonce, clock).0.tables, es + [e]);
  }

  lemma FirstKeyIsPrimary(t: Tables, outer: Result<Key, ProviderError>, a: Authenticator, rand: InitRandom, timeout: nat, now: int)
    requires Initialize(t, outer, a, rand, timeout, now).1.Ok?
    ensures LoadEnrollments(Initialize(t, outer, a, rand, timeout, now).0).Ok?
    ensures var es := LoadEnrollments(Initialize(t, outer, a, rand, timeout, now).0).value;
            |es| == 1 && es[0].name == "primary" && a.provision([]) == Ok(es[0].credentialId)
  {
    hide WrapKey, DeriveWrapKey, EnrollmentsWire, EncodeHex, LoadEnrollments, SealVerification, UuidText;
    var e := WrapFor(a, a.provision([]).value, rand.hmacSalt, rand.kdfSalt, rand.innerKek, rand.wrapNonce, "primary").value;
    EnrollmentsPersist(Initialize(t, outer, a, rand, timeout, now).0, [e]);
  }

  // ---- Enrolled authenticators -------------------------------------------------

  /** Roots never change and an enrolled credential is never dropped or altered. */
  lemma {:induction false} EnrolledOnlyGrows(g: Ideal, ops: seq<Op>)
    requires IdealValidRun(g, ops)
    ensures IdealRun(g, ops).roots == g.roots
    ensures g.enrolled <= IdealRun(g, ops).enrolled
    decreases |ops|
  {
    if ops != [] {
      EnrolledOnlyGrows(IdealStep(g, ops[0]).0, ops[1..]);
    }
  }

  /** An authenticator that holds an enrolled credential and, for every enrolled credential, either
      refuses or repeats the answer it was enrolled with. */
  ghost predicate Genuine(who: Authenticator, g: Ideal) {
    HoldsOne(who, g) && Consistent(who, g)
  }

  ghost predicate HoldsOne(who: Authenticator, g: Ideal) {
    exists c :: c in g.enrolled && who.answer(c.id, g.roots.hmacSalt).Ok?
  }

  /** No recorded answer contradicts `who`. */
  ghost predicate Consistent(who: Authenticator, g: Ideal) {
    forall c | c in g.enrolled && who.answer(c.id, g.roots.hmacSalt).Ok? ::
      who.answer(c.id, g.roots.hmacSalt).value == c.secret
  }

  lemma GenuineProves(who: Authenticator, g: Ideal)
    requires Genuine(who, g)
    ensures FirstAnswer(who, Ids(g.enrolled), g.roots.hmacSalt).Ok? && Proves(g, who)
  {
    var c :| c in g.enrolled && who.answer(c.id, g.roots.hmacSalt).Ok?;
    var j :| 0 <= j < |g.enrolled| && g.enrolled[j] == c;
    assert Ids(g.enrolled)[j] == c.id;
    FirstAnswerFails(who, Ids(g.enrolled), g.roots.hmacSalt);
    var i := FirstAnswerNamesOne(who, Ids(g.enrolled), g.roots.hmacSalt);
    assert g.enrolled[i] in g.enrolled;
  }

  /** Unlocking succeeds exactly when the outer key is the vault's and the authenticator repeats the
      enrolled answer for the first enrolled credential that it answers for. */
  lemma UnlocksExactlyWhen(s: Sessions.State, g: Ideal, ops: seq<Op>, who: Authenticator, now: int)
    requires Inv(s, g) && ValidRun(s, ops)
    ensures IdealValidRun(g, ops)
    ensures Unlock(Run(s, ops), who, now).1.Ok?
       <==> Proves(IdealRun(g, ops), who) && Run(s, ops).outer == g.roots.outer
  {
    RunRefines(s, g, ops);
    EnrolledOnlyGrows(g, ops);
    UnlockRefines(Run(s, ops), IdealRun(g, ops), who, now);
  }

  /** The contract of two authenticators under one salt: a credential that both answer for is one and the
      same credential, and gets one and the same answer. */
  ghost predicate Agree(a: Authenticator, b: Authenticator, salt: Bytes) {
    forall id: Bytes | a.answer(id, salt).Ok? && b.answer(id, salt).Ok? :: a.answer(id, salt) == b.answer(id, salt)
  }

  /** `who` keeps that contract with every authenticator that the run presents for enrollment. */
  ghost predicate AgreesWithAll(who: Authenticator, ops: seq<Op>, salt: Bytes) {
    forall i | 0 <= i < |ops| && ops[i].EnrollOp? :: Agree(who, ops[i].who, salt)
  }

  lemma StepConsistent(who: Authenticator, g: Ideal, op: Op)
    requires Consistent(who, g) && IdealPossible(g, op)
    requires op.EnrollOp? ==> Agree(who, op.who, g.roots.hmacSalt)
    ensures Consistent(who, IdealStep(g, op).0)
    ensures IdealStep(g, op).0.roots == g.roots
  {
  }

  /** The contract alone keeps every recorded answer true to `who`, along any run. */
  lemma {:induction false} RunConsistent(who: Authenticator, g: Ideal, ops: seq<Op>)
    requires Consistent(who, g) && IdealValidRun(g, ops) && AgreesWithAll(who, ops, g.roots.hmacSalt)
    ensures Consistent(who, IdealRun(g, ops))
    decreases |ops|
  {
    hide IdealStep, IdealPossible, Consistent, Agree;
    if ops != [] {
      StepConsistent(who, g, ops[0]);
      RunConsistent(who, IdealStep(g, ops[0]).0, ops[1..]);
    }
  }

  /** An enrollment with `who` succeeded. */
  ghost predicate EnrolledIn(who: Authenticator, ops: seq<Op>, outcomes: seq<Outcome>)
    requires |ops| == |outcomes|
  {
    exists k :: 0 <= k < |ops| && ops[k].EnrollOp? && ops[k].who == who && outcomes[k] == Done(Ok(()))
  }

  /** `who` holds a credential of the vault, or one was enrolled with it during the run. */
  ghost predicate EverEnrolled(who: Authenticator, g: Ideal, ops: seq<Op>)
    requires IdealValidRun(g, ops)
  {
    HoldsOne(who, g) || EnrolledIn(who, ops, IdealOutcomes(g, ops))
  }

  lemma EnrollingRecords(g: Ideal, op: Op)
    requires IdealPossible(g, op) && op.EnrollOp? && IdealStep(g, op).1 == Done(Ok(()))
    ensures HoldsOne(op.who, IdealStep(g, op).0)
  {
    var g' := IdealStep(g, op).0;
    var last := g'.enrolled[|g'.enrolled| - 1];
    assert last in g'.enrolled && op.who.answer(last.id, g.roots.hmacSalt) == Ok(last.secret);
  }

  lemma HoldingLasts(who: Authenticator, g: Ideal, ops: seq<Op>)
    requires HoldsOne(who, g) && IdealValidRun(g, ops)
    ensures HoldsOne(who, IdealRun(g, ops))
  {
    EnrolledOnlyGrows(g, ops);
  }

  lemma {:induction false} EverEnrolledHolds(who: Authenticator, g: Ideal, ops: seq<Op>)
    requires IdealValidRun(g, ops) && EverEnrolled(who, g, ops)
    ensures HoldsOne(who, IdealRun(g, ops))
    decreases |ops|
  {
    hide IdealStep, IdealPossible, HoldsOne;
    if HoldsOne(who, g) {
      HoldingLasts(who, g, ops);
    } else {
      var k :| 0 <= k < |ops| && ops[k].EnrollOp? && ops[k].who == who && IdealOutcomes(g, ops)[k] == Done(Ok(()));
      var g1 := IdealStep(g, ops[0]).0;
      if k == 0 {
        EnrollingRecords(g, ops[0]);
      } else {
        assert ops[1..][k - 1] == ops[k] && IdealOutcomes(g1, ops[1..])[k - 1] == IdealOutcomes(g, ops)[k];
      }
      EverEnrolledHolds(who, g1, ops[1..]);
    }
  }

  /** After the run and a restart with the vault's outer key, `who` alone unlocks, recovering `inner`. */
  ghost predicate OpensAlone(t: Tables, outer: Key, inner: Key, who: Authenticator, timeout: nat, now: int) {
    && OpenLocked(t, Ok(outer), timeout).Ok?
    && var (s, r) := Unlock(OpenLocked(t, Ok(outer), timeout).value, who, now);
       r == Ok(()) && s.inner == Some(inner) && s.deadline == Some(now + timeout)
  }

  /** From any state of a vault: an authenticator that it has or that the run enrolls still opens it alone
      at the end. */
  lemma EnrolledOpensAlone(s: Sessions.State, g: Ideal, ops: seq<Op>, who: Authenticator, timeout: nat, now: int)
    requires Inv(s, g) && ValidRun(s, ops) && IdealValidRun(g, ops)
    requires Consistent(who, g) && AgreesWithAll(who, ops, g.roots.hmacSalt) && EverEnrolled(who, g, ops)
    ensures OpensAlone(Run(s, ops).tables, g.roots.outer, g.roots.inner, who, timeout, now)
  {
    hide Inv, EverEnrolled, AgreesWithAll, Unlock, OpenLocked;
    RunRefines(s, g, ops);
    EnrolledOnlyGrows(g, ops);
    RunConsistent(who, g, ops);
    EverEnrolledHolds(who, g, ops);
    var g' := IdealRun(g, ops);
    assert Genuine(who, g');
    RestartUnlocks(Run(s, ops), g', who, timeout, now);
  }

  /** The whole life of a vault. Initialise it with one authenticator, then run anything: the authenticator
      of initialisation, and each one with which an enrollment ever succeeded, opens the vault alone after
      a restart and recovers the inner key that initialisation drew. Of the authenticators nothing is
      assumed but that no two of them answer differently for one credential. */
  lemma EveryEnrolledOpensAlone(t: Tables, outer: Key, primary: Authenticator, rand: InitRandom, timeout0: nat, start: int,
                                ops: seq<Op>, who: Authenticator, timeout: nat, now: int)
    requires t.rows == map[]
    requires var made := Initialize(t, Ok(outer), primary, rand, timeout0, start).1; made.Ok? && ValidRun(made.value, ops)
    requires Agree(who, primary, rand.hmacSalt) && AgreesWithAll(who, ops, rand.hmacSalt)
    requires var s := Initialize(t, Ok(outer), primary, rand, timeout0, start).1.value;
             who == primary || EnrolledIn(who, ops, Outcomes(s, ops))
    ensures var s := Initialize(t, Ok(outer), primary, rand, timeout0, start).1.value;
            OpensAlone(Run(s, ops).tables, outer, rand.innerKek, who, timeout, now)
  {
    hide Initialize, Inv, Agree, AgreesWithAll, OpensAlone, EnrolledIn, HoldsOne, Consistent, ValidRun, IdealValidRun, Run,
      IdealRun, Outcomes, IdealOutcomes;
    InitializeEstablishes(t, Ok(outer), primary, rand, timeout0, start);
    var s := Initialize(t, Ok(outer), primary, rand, timeout0, start).1.value;
    var g := Created(outer, primary, rand, timeout0, start);
    RunRefines(s, g, ops);
    PrimaryIsGenuine(outer, primary, rand, timeout0, start);
    CreatedConsistent(outer, primary, rand, timeout0, start, who);
    EnrolledOpensAlone(s, g, ops, who, timeout, now);
  }

  lemma CreatedConsistent(outer: Key, primary: Authenticator, rand: InitRandom, timeout: nat, now: int, who: Authenticator)
    requires primary.provision([]).Ok? && primary.answer(primary.provision([]).value, rand.hmacSalt).Ok?
    requires Agree(who, primary, rand.hmacSalt)
    ensures Consistent(who, Created(outer, primary, rand, timeout, now))
  {
  }

  /** A genuine authenticator opens a restarted vault, and the restart opens the same database. */
  lemma RestartUnlocks(s: Sessions.State, g: Ideal, who: Authenticator, timeout: nat, now: int)
    requires Inv(s, g) && Genuine(who, g)
    ensures OpenLocked(s.tables, Ok(g.roots.outer), timeout).Ok?
    ensures var (s2, r) := Unlock(OpenLocked(s.tables, Ok(g.roots.outer), timeout).value, who, now);
            && r == Ok(()) && s2.inner == Some(g.roots.inner) && s2.deadline == Some(now + timeout)
            && Inv(s2, g.(presented := g.roots.outer, timeout := timeout, deadline := Some(now + timeout)))
  {
    hide Unlock;
    var s1 := OpenLocked(s.tables, Ok(g.roots.outer), timeout).value;
    var g1 := g.(presented := g.roots.outer, timeout := timeout, deadline := None);
    assert Inv(s1, g1);
    assert Genuine(who, g1);
    GenuineProves(who, g1);
    UnlockRefines(s1, g1, who, now);
  }

  /** The primary authenticator, enrolled by initialisation, is genuine from the start. */
  lemma PrimaryIsGenuine(outer: Key, a: Authenticator, rand: InitRandom, timeout: nat, now: int)
    requires a.provision([]).Ok? && a.answer(a.provision([]).value, rand.hmacSalt).Ok?
    ensures Genuine(a, Created(outer, a, rand, timeout, now))
  {
    var g := Created(outer, a, rand, timeout, now);
    assert g.enrolled[0] in g.enrolled;
  }

  lemma WrongKeyStep(g: Ideal, op: Op)
    requires g.presented != g.roots.outer && IdealPossible(g, op) && !op.RestartOp?
    ensures var (g', outcome) := IdealStep(g, op);
            && g'.presented == g.presented && g'.roots == g.roots
            && (op.UnlockOp? ==> outcome.Done? && outcome.done.Err?)
  {
  }

  /** A session opened with any other outer key never unlocks, whatever is tried before the next
      restart. */
  lemma {:induction false} WrongOuterKeyNeverUnlocks(s: Sessions.State, g: Ideal, ops: seq<Op>)
    requires Inv(s, g) && g.presented != g.roots.outer && ValidRun(s, ops)
    requires forall i | 0 <= i < |ops| :: !ops[i].RestartOp?
    ensures Run(s, ops).inner == None
    ensures forall i | 0 <= i < |ops| && ops[i].UnlockOp? :: Outcomes(s, ops)[i].Done? && Outcomes(s, ops)[i].done.Err?
    decreases |ops|
  {
    if ops != [] {
      WrongKeyHolds(s, g, ops[0]);
      WrongOuterKeyNeverUnlocks(Step(s, ops[0]).0, IdealStep(g, ops[0]).0, ops[1..]);
    }
  }

  lemma WrongKeyHolds(s: Sessions.State, g: Ideal, op: Op)
    requires Inv(s, g) && g.presented != g.roots.outer && Possible(s, op) && !op.RestartOp?
    ensures s.inner == None
    ensures IdealPossible(g, op) && Inv(Step(s, op).0, IdealStep(g, op).0)
    ensures IdealStep(g, op).0.presented != IdealStep(g, op).0.roots.outer
    ensures op.UnlockOp? ==> Step(s, op).1.Done? && Step(s, op).1.done.Err?
  {
    hide Step, IdealStep, MetaTableMatches, EnrollmentsStored, RowsMatch;
    StepRefines(s, g, op);
    WrongKeyStep(g, op);
  }

  // ---- The map of secrets -------------------------------------------------------

  /** What a history last stored under an id, read backwards from its end: the last successful add
      or update, unless a later delete succeeded. */
  ghost function LastStored(ops: seq<Op>, outcomes: seq<Outcome>, id: Bytes, initial: Option<Secret>): Option<Secret>
    requires |ops| == |outcomes|
    decreases |ops|
  {
    if ops == [] then initial
    else
      var last, outcome := ops[|ops| - 1], outcomes[|ops| - 1];
      if (last.AddOp? || last.UpdateOp?) && last.meta.id == id && outcome == Done(Ok(()))
      then Some(Secret(last.meta, last.payload))
      else if last.DeleteOp? && last.id == id && outcome == Done(Ok(())) then None
      else LastStored(ops[..|ops| - 1], outcomes[..|ops| - 1], id, initial)
  }

  function Lookup(contents: map<Bytes, Secret>, id: Bytes): Option<Secret> {
    if id in contents then Some(contents[id]) else None
  }

  lemma {:induction false} IdealSnoc(g: Ideal, ops: seq<Op>)
    requires IdealValidRun(g, ops) && ops != []
    ensures var n := |ops| - 1;
            && IdealValidRun(g, ops[..n]) && IdealPossible(IdealRun(g, ops[..n]), ops[n])
            && IdealRun(g, ops) == IdealStep(IdealRun(g, ops[..n]), ops[n]).0
            && IdealOutcomes(g, ops) == IdealOutcomes(g, ops[..n]) + [IdealStep(IdealRun(g, ops[..n]), ops[n]).1]
    decreases |ops|
  {
    hide IdealStep, IdealPossible;
    var n := |ops| - 1;
    if n == 0 {
      assert ops[1..] == [];
    } else {
      IdealSnoc(IdealStep(g, ops[0]).0, ops[1..]);
      assert ops[1..][..n - 1] == ops[..n][1..];
    }
  }

  lemma StoredStep(g: Ideal, op: Op, id: Bytes)
    requires IdealPossible(g, op)
    ensures Lookup(IdealStep(g, op).0.contents, id) ==
            if (op.AddOp? || op.UpdateOp?) && op.meta.id == id && IdealStep(g, op).1 == Done(Ok(()))
            then Some(Secret(op.meta, op.payload))
            else if op.DeleteOp? && op.id == id && IdealStep(g, op).1 == Done(Ok(())) then None
            else Lookup(g.contents, id)
  {
  }

  lemma {:induction false} ContentsAreLastStored(g: Ideal, ops: seq<Op>, id: Bytes)
    requires IdealValidRun(g, ops)
    ensures Lookup(IdealRun(g, ops).contents, id) == LastStored(ops, IdealOutcomes(g, ops), id, Lookup(g.contents, id))
    decreases |ops|
  {
    hide IdealStep, IdealPossible;
    if ops != [] {
      var n := |ops| - 1;
      IdealSnoc(g, ops);
      ContentsAreLastStored(g, ops[..n], id);
      assert IdealOutcomes(g, ops)[..n] == IdealOutcomes(g, ops[..n]);
      StoredStep(IdealRun(g, ops[..n]), ops[n], id);
    }
  }

  /** While unlocked, reading a secret after any run returns exactly what was last stored under its
      id and not deleted since, and fails when there is nothing. */
  lemma ReadsLastStored(s: Sessions.State, g: Ideal, ops: seq<Op>, id: Uuid, clock: Clock)
    requires Inv(s, g) && g.contents == map[] && ValidRun(s, ops)
    requires Observe(Run(s, ops), clock.check).Unlocked?
    ensures var stored := LastStored(ops, Outcomes(s, ops), id, None);
            && OpenSecret(Run(s, ops), id, clock).1
               == (if stored.Some? then Ok(stored.value.payload) else Err(VaultErr(NotFound(id))))
            && MetaFor(Run(s, ops), id, clock.check).1
               == (if stored.Some? then Ok(stored.value.meta) else Err(VaultErr(NotFound(id))))
  {
    RunRefines(s, g, ops);
    ContentsAreLastStored(g, ops, id);
    ReadsContents(Run(s, ops), IdealRun(g, ops), id, clock);
  }

  lemma ReadsContents(s: Sessions.State, g: Ideal, id: Uuid, clock: Clock)
    requires Inv(s, g) && Observe(s, clock.check).Unlocked?
    ensures OpenSecret(s, id, clock).1
            == (if id in g.contents then Ok(g.contents[id].payload) else Err(VaultErr(NotFound(id))))
    ensures MetaFor(s, id, clock.check).1
            == (if id in g.contents then Ok(g.contents[id].meta) else Err(VaultErr(NotFound(id))))
  {
    hide OpenPayload, OpenMeta, Holds, MetaTableMatches, EnrollmentsStored;
    if id in g.contents {
      RowOpens(s, g, id);
    }
  }

  /** A failing add, update or delete leaves the database as it was. */
  lemma FailedWritesChangeNothing(s: Sessions.State, meta: SecretMeta, payload: SecretPayload, rand: SealRandom, clock: Clock, id: Uuid)
    ensures Add(s, meta, payload, rand, clock).1.Err? ==> Add(s, meta, payload, rand, clock).0.tables == s.tables
    ensures Update(s, meta, payload, rand, clock).1.Err? ==> Update(s, meta, payload, rand, clock).0.tables == s.tables
    ensures Delete(s, id).1.Err? ==> Delete(s, id).0 == s
    ensures meta.id in s.tables.rows ==> Add(s, meta, payload, rand, clock).1.Err?
    ensures meta.id !in s.tables.rows ==> Update(s, meta, payload, rand, clock).1.Err?
    ensures id !in s.tables.rows ==> Delete(s, id).1 == Err(VaultErr(NotFound(id)))
  {
    hide SealedRow;
  }

  /** Which error a write or a read gets: the lock is looked at before the row by a write, and after it by a
      read. */
  lemma ErrorsExactly(s: Sessions.State, meta: SecretMeta, payload: SecretPayload, rand: SealRandom, clock: Clock)
    ensures var (open, stored) := (Observe(s, clock.check).Unlocked?, meta.id in s.tables.rows);
            && (Add(s, meta, payload, rand, clock).1
                == if !open then Err(VaultLocked) else if stored then Err(VaultErr(Constraint)) else Ok(()))
            && (Update(s, meta, payload, rand, clock).1
                == if !open then Err(VaultLocked) else if !stored then Err(VaultErr(NotFound(meta.id))) else Ok(()))
            && (!stored ==> MetaFor(s, meta.id, clock.check).1 == Err(VaultErr(NotFound(meta.id))))
            && (!stored ==> OpenSecret(s, meta.id, clock).1 == Err(VaultErr(NotFound(meta.id))))
            && (stored && !open ==> MetaFor(s, meta.id, clock.check).1 == Err(VaultLocked))
            && (stored && !open ==> OpenSecret(s, meta.id, clock).1 == Err(VaultLocked))
  {
    hide SealedRow, OpenMeta, OpenPayload;
  }

  lemma ByNameIsPreorder(lower: string -> string)
    ensures StableSort.TotalPreorder(ByName(lower))
  {
    forall a: SecretMeta, b: SecretMeta ensures ByName(lower)(a, b) || ByName(lower)(b, a) {
      Lex.Trichotomy(lower(a.name), lower(b.name));
    }
    forall a: SecretMeta, b: SecretMeta, c: SecretMeta | ByName(lower)(a, b) && ByName(lower)(b, c)
      ensures ByName(lower)(a, c)
    {
      if lower(a.name) != lower(b.name) && lower(b.name) != lower(c.name) {
        Lex.Transitive(lower(a.name), lower(b.name), lower(c.name));
      }
    }
  }

  /** A successful list holds the metadata of every stored secret once, ordered by lowercased name. */
  lemma ListIsEverythingByName(s: Sessions.State, g: Ideal, keys: seq<Bytes>, lower: string -> string, now: int)
    requires Inv(s, g) && RowOrder(s.tables, keys) && Observe(s, now).Unlocked?
    ensures forall i | 0 <= i < |keys| :: keys[i] in g.contents
    ensures var r := ListSecrets(s, keys, lower, now).1;
            && r.Ok? && StableSort.Ordered(r.value, ByName(lower))
            && multiset(r.value) == multiset(MetasOf(g.contents, keys))
    ensures |keys| == |g.contents|
  {
    hide OpenRows, StableSort.Sort, Holds, MetaTableMatches, EnrollmentsStored;
    RowsOpen(s, g, keys);
    ByNameIsPreorder(lower);
    StableSort.SortOrders(MetasOf(g.contents, keys), ByName(lower));
    StableSort.SortKeeps(MetasOf(g.contents, keys), ByName(lower));
    EachKeyOnce(keys, g.contents.Keys);
  }

  /** The names of a list, lowercased, do not go down. */
  ghost predicate NamesAscend(metas: seq<SecretMeta>, lower: string -> string) {
    forall i, j | 0 <= i < j < |metas| ::
      lower(metas[i].name) == lower(metas[j].name) || Lex.Less(lower(metas[i].name), lower(metas[j].name))
  }

  lemma OrderedByName(metas: seq<SecretMeta>, lower: string -> string)
    ensures StableSort.Ordered(metas, ByName(lower)) <==> NamesAscend(metas, lower)
  {
    hide Lex.Less;
    if NamesAscend(metas, lower) {
      forall i, j | 0 <= i < j < |metas| ensures ByName(lower)(metas[i], metas[j]) {
      }
    }
    if StableSort.Ordered(metas, ByName(lower)) {
      forall i, j | 0 <= i < j < |metas|
        ensures lower(metas[i].name) == lower(metas[j].name) || Lex.Less(lower(metas[i].name), lower(metas[j].name))
      {
        assert ByName(lower)(metas[i], metas[j]);
      }
    }
  }

  /** What a successful list is in the order of. */
  lemma ListIsByLowercasedName(s: Sessions.State, g: Ideal, keys: seq<Bytes>, lower: string -> string, now: int)
    requires Inv(s, g) && RowOrder(s.tables, keys) && Observe(s, now).Unlocked?
    ensures var r := ListSecrets(s, keys, lower, now).1; r.Ok? && NamesAscend(r.value, lower)
  {
    hide ListSecrets, Inv, NamesAscend, Observe, StableSort.Ordered;
    ListIsEverythingByName(s, g, keys, lower, now);
    OrderedByName(ListSecrets(s, keys, lower, now).1.value, lower);
  }

  lemma {:induction false} EachKeyOnce(keys: seq<Bytes>, domain: set<Bytes>)
    requires Distinct(keys) && (forall i | 0 <= i < |keys| :: keys[i] in domain) && (forall k | k in domain :: k in keys)
    ensures |keys| == |domain|
    decreases |keys|
  {
    if keys != [] {
      forall k | k in domain - {keys[0]} ensures k in keys[1..] {
        var i :| 0 <= i < |keys| && keys[i] == k;
        assert keys[1..][i - 1] == k;
      }
      EachKeyOnce(keys[1..], domain - {keys[0]});
    }
  }
}
