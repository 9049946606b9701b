/** The lock state machine and the only path to plaintext (`vault/session.rs`).

    Each operation is a function on a state value, and a method of the class `Session` that is
    proved to compute it. Randomness, providers and the clock are arguments. */
module Sessions {
  import opened Common
  import opened Symbolic
  import opened Keys
  import opened Envelope
  import opened Model
  import opened Db
  import Chars
  import Lex
  import StableSort

  datatype LockState = Locked | Unlocked(remaining: int)

  datatype SessionError =
    | VaultLocked
    | AlreadyInitialized
    | VerificationFailed
    | NoMatchingKey
    | BadEnrollments
    | AlreadyEnrolled
    | VaultErr(vault: VaultError)
    | EnvelopeErr(envelope: EnvelopeError)
    | ProviderErr(provider: ProviderError)

  /** The instant of an operation's lock check and the later instant of its renewal. */
  datatype Clock = Clock(check: int, renew: int)

  // ---- Enrollments ------------------------------------------------------------

  datatype Enrollment = Enrollment(name: string, credentialId: Bytes, wrapBlob: Bytes)

  function EnrollmentWire(e: Enrollment): Cbor {
    Fields(map["l" := Text(e.name), "c" := Blob(e.credentialId), "w" := Blob(e.wrapBlob)])
  }

  function EnrollmentsWire(es: seq<Enrollment>): Cbor {
    List(seq(|es|, i requires 0 <= i < |es| => EnrollmentWire(es[i])))
  }

  predicate IsEnrollment(c: Cbor) {
    c.Fields? && "l" in c.fields && c.fields["l"].Text? && "c" in c.fields && c.fields["c"].Blob?
    && "w" in c.fields && c.fields["w"].Blob?
  }

  function EnrollmentOf(c: Cbor): Enrollment
    requires IsEnrollment(c)
  {
    Enrollment(c.fields["l"].text, c.fields["c"].bytes, c.fields["w"].bytes)
  }

  function EnrollmentsOf(items: seq<Cbor>): Option<seq<Enrollment>> {
    if items == [] then Some([])
    else if !IsEnrollment(items[0]) then None
    else
      match EnrollmentsOf(items[1..])
      case None => None
      case Some(rest) => Some([EnrollmentOf(items[0])] + rest)
  }

  lemma {:induction false} EnrollmentsRoundTrip(es: seq<Enrollment>)
    ensures EnrollmentsOf(EnrollmentsWire(es).items) == Some(es)
    decreases |es|
  {
    if es != [] {
      EnrollmentsRoundTrip(es[1..]);
      assert EnrollmentsWire(es).items[1..] == EnrollmentsWire(es[1..]).items;
      assert es == [es[0]] + es[1..];
    }
  }

  function LoadEnrollments(t: Tables): Result<seq<Enrollment>, SessionError> {
    match RequireMetaBytes(t, Enrollments)
    case Err(e) => Err(VaultErr(e))
    case Ok(bytes) =>
      match FromCbor(bytes)
      case None => Err(BadEnrollments)
      case Some(c) =>
        if !c.List? || EnrollmentsOf(c.items).None? then Err(BadEnrollments)
        else Ok(EnrollmentsOf(c.items).value)
  }

  function SaveEnrollments(t: Tables, es: seq<Enrollment>): Tables {
    SetMetaBytes(t, Enrollments, ToCbor(EnrollmentsWire(es)))
  }

  /** What is saved is loaded again, through CBOR and hex. */
  lemma EnrollmentsPersist(t: Tables, es: seq<Enrollment>)
    requires Enrollments in t.meta && t.meta[Enrollments] == EncodeHex(ToCbor(EnrollmentsWire(es)))
    ensures LoadEnrollments(t) == Ok(es)
  {
    MetaBytesRoundTrip(t, Enrollments, ToCbor(EnrollmentsWire(es)));
    EnrollmentsRoundTrip(es);
  }

  function CredentialIds(es: seq<Enrollment>): (ids: seq<Bytes>)
    ensures |ids| == |es| && forall i | 0 <= i < |es| :: ids[i] == es[i].credentialId
  {
    seq(|es|, i requires 0 <= i < |es| => es[i].credentialId)
  }

  function FindEnrollment(es: seq<Enrollment>, id: Bytes): Option<Enrollment> {
    if es == [] then None
    else if es[0].credentialId == id then Some(es[0])
    else FindEnrollment(es[1..], id)
  }

  function WrapFor(a: Authenticator, credentialId: Bytes, hmacSalt: Bytes, kdfSalt: Bytes, innerKek: Key,
                   nonce: Nonce, name: string): Result<Enrollment, SessionError> {
    match a.answer(credentialId, hmacSalt)
    case Err(e) => Err(ProviderErr(e))
    case Ok(secret) => Ok(Enrollment(name, credentialId, WrapKey(DeriveWrapKey(secret, kdfSalt), innerKek, nonce)))
  }

  /** The stored name: the trimmed label, or a numbered one. */
  function EnrollmentName(given: string, existing: nat): string {
    var trimmed := Chars.Trim(given);
    if trimmed == "" then "key-" + Chars.Decimal(existing + 1) else trimmed
  }

  lemma OrdinalReads(n: nat)
    ensures Chars.AllDigits(Chars.Decimal(n)) && Chars.NumberOf(Chars.Decimal(n)) == n
  {
    Chars.PaddedReads(n, 1);
  }

  /** A key is stored under its trimmed label; without one, under "key-" and its ordinal number. */
  lemma EnrollmentIsNamed(given: string, existing: nat)
    ensures var name := EnrollmentName(given, existing);
            if forall i | 0 <= i < |given| :: Chars.IsWhitespace(given[i])
            then "key-" <= name && Chars.AllDigits(name[4..]) && Chars.NumberOf(name[4..]) == existing + 1
            else exists i, j | 0 <= i < j <= |given| :: name == given[i..j] && !Chars.IsWhitespace(name[0])
                   && !Chars.IsWhitespace(name[|name| - 1])
                   && (forall k | 0 <= k < i || j <= k < |given| :: Chars.IsWhitespace(given[k]))
  {
    OrdinalReads(existing + 1);
    hide Chars.Decimal, Chars.NumberOf;
    assert ("key-" + Chars.Decimal(existing + 1))[4..] == Chars.Decimal(existing + 1);
    var i, j := Chars.TrimCuts(given);
    if i < j {
      assert Chars.Trim(given) == given[i..j];
    }
  }

  // ---- The state machine on values --------------------------------------------

  datatype State = State(tables: Tables, outer: Key, inner: Option<Key>, deadline: Option<int>, timeout: nat)

  /** The random draws of `initialize`. */
  datatype InitRandom = InitRandom(
    innerKek: Key, kdfSalt: Bytes, hmacSalt: Bytes, wrapNonce: Nonce, verifyId: Uuid, verifyNonces: Nonces)

  function InitialTables(t: Tables, outerKek: Key, rand: InitRandom, primary: Enrollment): Tables {
    var t1 := SetMetaBytes(t, KdfSalt, rand.kdfSalt);
    var t2 := SetMetaBytes(t1, HmacSalt, rand.hmacSalt);
    var t3 := SaveEnrollments(t2, [primary]);
    var t4 := SetMetaBytes(t3, VerifyBlob,
                           SealVerification(rand.verifyId, rand.innerKek, outerKek, rand.verifyNonces.n1, rand.verifyNonces.n2));
    SetMeta(t4, VerifyId, UuidText(rand.verifyId))
  }

  function Initialize(t: Tables, outer: Result<Key, ProviderError>, a: Authenticator, rand: InitRandom,
                      timeout: nat, now: int): (Tables, Result<State, SessionError>) {
    if KdfSalt in t.meta then (t, Err(AlreadyInitialized))
    else if outer.Err? then (t, Err(ProviderErr(outer.error)))
    else
      var credential := a.provision([]);
      if credential.Err? then (t, Err(ProviderErr(credential.error)))
      else
        match WrapFor(a, credential.value, rand.hmacSalt, rand.kdfSalt, rand.innerKek, rand.wrapNonce, "primary")
        case Err(e) => (t, Err(e))
        case Ok(primary) =>
          var t' := InitialTables(t, outer.value, rand, primary);
          (t', Ok(State(t', outer.value, Some(rand.innerKek), Some(now + timeout), timeout)))
  }

  function OpenLocked(t: Tables, unsealed: Result<Key, ProviderError>, timeout: nat): Result<State, SessionError> {
    if KdfSalt !in t.meta then Err(VaultErr(NotInitialized))
    else if unsealed.Err? then Err(ProviderErr(unsealed.error))
    else Ok(State(t, unsealed.value, None, None, timeout))
  }

  function Lock(s: State): State {
    s.(inner := None, deadline := None)
  }

  function Tick(s: State, now: int): (State, LockState) {
    if s.inner.Some? && s.deadline.Some? then
      if now >= s.deadline.value then (Lock(s), Locked) else (s, Unlocked(s.deadline.value - now))
    else (if s.inner.Some? then Lock(s) else s, Locked)
  }

  function Touch(s: State, now: int): State {
    if s.inner.Some? then s.(deadline := Some(now + s.timeout)) else s
  }

  function Observe(s: State, now: int): LockState {
    if s.inner.Some? && s.deadline.Some? && now < s.deadline.value then Unlocked(s.deadline.value - now) else Locked
  }

  function Unlock(s: State, a: Authenticator, now: int): (State, Result<(), SessionError>) {
    var hmacSalt, kdfSalt := RequireMetaBytes(s.tables, HmacSalt), RequireMetaBytes(s.tables, KdfSalt);
    if hmacSalt.Err? then (s, Err(VaultErr(hmacSalt.error)))
    else if kdfSalt.Err? then (s, Err(VaultErr(kdfSalt.error)))
    else
      match LoadEnrollments(s.tables)
      case Err(e) => (s, Err(e))
      case Ok(es) =>
        match FirstAnswer(a, CredentialIds(es), hmacSalt.value)
        case Err(e) => (s, Err(ProviderErr(e)))
        case Ok((matched, assertion)) =>
          match FindEnrollment(es, matched)
          case None => (s, Err(NoMatchingKey))
          case Some(enrollment) =>
            match UnwrapKey(DeriveWrapKey(assertion, kdfSalt.value), enrollment.wrapBlob)
            case Err(_) => (s, Err(VerificationFailed))
            case Ok(innerKek) => Admit(s, innerKek, now)
  }

  /** The verification step of an unlock. */
  function Admit(s: State, innerKek: Key, now: int): (State, Result<(), SessionError>) {
    var blob := RequireMetaBytes(s.tables, VerifyBlob);
    if blob.Err? then (s, Err(VaultErr(blob.error)))
    else if VerifyId !in s.tables.meta || ParseUuid(s.tables.meta[VerifyId]).None?
    then (s, Err(VaultErr(BadMeta(VerifyId))))
    else
      var id := ParseUuid(s.tables.meta[VerifyId]).value;
      if VerifyKeys(id, innerKek, s.outer, blob.value) != Ok(true) then (s, Err(VerificationFailed))
      else (s.(inner := Some(innerKek), deadline := Some(now + s.timeout)), Ok(()))
  }

  function EnrollKey(s: State, a: Authenticator, given: string, nonce: Nonce, clock: Clock): (State, Result<(), SessionError>) {
    var s1 := Tick(s, clock.check).0;
    if s1.inner.None? then (s1, Err(VaultLocked))
    else
      var hmacSalt, kdfSalt := RequireMetaBytes(s1.tables, HmacSalt), RequireMetaBytes(s1.tables, KdfSalt);
      if hmacSalt.Err? then (s1, Err(VaultErr(hmacSalt.error)))
      else if kdfSalt.Err? then (s1, Err(VaultErr(kdfSalt.error)))
      else
        match LoadEnrollments(s1.tables)
        case Err(e) => (s1, Err(e))
        case Ok(es) =>
          match a.provision(CredentialIds(es))
          case Err(e) => (s1, Err(ProviderErr(e)))
          case Ok(credential) =>
            if credential in CredentialIds(es) then (s1, Err(AlreadyEnrolled))
            else
              match WrapFor(a, credential, hmacSalt.value, kdfSalt.value, s1.inner.value, nonce, EnrollmentName(given, |es|))
              case Err(e) => (s1, Err(e))
              case Ok(e) => (Touch(s1.(tables := SaveEnrollments(s1.tables, es + [e])), clock.renew), Ok(()))
  }

  function OpenRows(rows: seq<SecretRow>, inner: Key, outer: Key): Result<seq<SecretMeta>, SessionError> {
    if rows == [] then Ok([])
    else
      match OpenMeta(rows[0].metaId, rows[0].id, inner, outer, rows[0].metaBlob)
      case Err(e) => Err(EnvelopeErr(e))
      case Ok(meta) =>
        Prepended([meta], OpenRows(rows[1..], inner, outer))
  }

  function Prepended(metas: seq<SecretMeta>, rest: Result<seq<SecretMeta>, SessionError>): Result<seq<SecretMeta>, SessionError> {
    if rest.Err? then rest else Ok(metas + rest.value)
  }

  lemma PrependNone(metas: seq<SecretMeta>, rest: Result<seq<SecretMeta>, SessionError>)
    ensures Prepended([], rest) == rest && Prepended(metas, Ok([])) == Ok(metas)
  {
    if rest.Ok? {
      assert [] + rest.value == rest.value;
    }
    assert metas + [] == metas;
  }

  lemma PrependOne(metas: seq<SecretMeta>, meta: SecretMeta, rest: Result<seq<SecretMeta>, SessionError>)
    ensures Prepended(metas, Prepended([meta], rest)) == Prepended(metas + [meta], rest)
  {
    if rest.Ok? {
      assert metas + ([meta] + rest.value) == metas + [meta] + rest.value;
    }
  }

  function RowsOf(t: Tables, keys: seq<Bytes>): seq<SecretRow>
    requires forall i | 0 <= i < |keys| :: keys[i] in t.rows
  {
    seq(|keys|, i requires 0 <= i < |keys| => RowOf(t, keys[i]))
  }

  /** `sort_by_key(|m| m.name.to_lowercase())`, for the Unicode lowercasing `lower`. */
  function ByName(lower: string -> string): (SecretMeta, SecretMeta) -> bool {
    (a: SecretMeta, b: SecretMeta) => Lex.AtMost(lower(a.name), lower(b.name))
  }

  /** `keys` is the order in which the query happened to return the rows. */
  function ListSecrets(s: State, keys: seq<Bytes>, lower: string -> string, now: int): (State, Result<seq<SecretMeta>, SessionError>)
    requires forall i | 0 <= i < |keys| :: keys[i] in s.tables.rows
  {
    var s1 := Tick(s, now).0;
    if s1.inner.None? then (s1, Err(VaultLocked))
    else
      match OpenRows(RowsOf(s1.tables, keys), s1.inner.value, s1.outer)
      case Err(e) => (s1, Err(e))
      case Ok(metas) => (s1, Ok(StableSort.Sort(metas, ByName(lower))))
  }

  function MetaFor(s: State, id: Uuid, now: int): (State, Result<SecretMeta, SessionError>) {
    if id !in s.tables.rows then (s, Err(VaultErr(NotFound(id))))
    else
      var s1 := Tick(s, now).0;
      if s1.inner.None? then (s1, Err(VaultLocked))
      else
        var row := RowOf(s1.tables, id);
        match OpenMeta(row.metaId, row.id, s1.inner.value, s1.outer, row.metaBlob)
        case Err(e) => (s1, Err(EnvelopeErr(e)))
        case Ok(meta) => (s1, Ok(meta))
  }

  function OpenSecret(s: State, id: Uuid, clock: Clock): (State, Result<SecretPayload, SessionError>) {
    if id !in s.tables.rows then (s, Err(VaultErr(NotFound(id))))
    else
      var s1 := Tick(s, clock.check).0;
      if s1.inner.None? then (s1, Err(VaultLocked))
      else
        match OpenPayload(id, s1.inner.value, s1.outer, s1.tables.rows[id].payloadBlob)
        case Err(e) => (s1, Err(EnvelopeErr(e)))
        case Ok(payload) => (Touch(s1, clock.renew), Ok(payload))
  }

  /** The random draws of one `add` or `update`. */
  datatype SealRandom = SealRandom(metaId: Uuid, forMeta: Nonces, forPayload: Nonces)

  function SealedRow(meta: SecretMeta, payload: SecretPayload, inner: Key, outer: Key, rand: SealRandom): Row {
    Row(rand.metaId, SealMeta(rand.metaId, inner, outer, rand.forMeta, meta),
        SealPayload(meta.id, inner, outer, rand.forPayload, payload))
  }

  function Add(s: State, meta: SecretMeta, payload: SecretPayload, rand: SealRandom, clock: Clock): (State, Result<(), SessionError>) {
    var s1 := Tick(s, clock.check).0;
    if s1.inner.None? then (s1, Err(VaultLocked))
    else if meta.id in s1.tables.rows then (s1, Err(VaultErr(Constraint)))
    else (Touch(WithRow(s1, meta, payload, rand), clock.renew), Ok(()))
  }

  function Update(s: State, meta: SecretMeta, payload: SecretPayload, rand: SealRandom, clock: Clock): (State, Result<(), SessionError>) {
    var s1 := Tick(s, clock.check).0;
    if s1.inner.None? then (s1, Err(VaultLocked))
    else if meta.id !in s1.tables.rows then (s1, Err(VaultErr(NotFound(meta.id))))
    else (Touch(WithRow(s1, meta, payload, rand), clock.renew), Ok(()))
  }

  function WithRow(s: State, meta: SecretMeta, payload: SecretPayload, rand: SealRandom): State
    requires s.inner.Some?
  {
    s.(tables := s.tables.(rows := s.tables.rows[meta.id := SealedRow(meta, payload, s.inner.value, s.outer, rand)]))
  }

  function Delete(s: State, id: Uuid): (State, Result<(), SessionError>) {
    if id !in s.tables.rows then (s, Err(VaultErr(NotFound(id))))
    else (s.(tables := s.tables.(rows := s.tables.rows - {id})), Ok(()))
  }

  // ---- The session object -----------------------------------------------------

  class Session {
    const vault: Vault
    var outerKek: Key
    var innerKek: Option<Key>
    var deadline: Option<int>
    var timeout: nat

    ghost function View(): State
      reads this, vault
    {
      State(vault.tables, outerKek, innerKek, deadline, timeout)
    }

    constructor (vault: Vault, outerKek: Key, innerKek: Option<Key>, deadline: Option<int>, timeout: nat)
      ensures this.vault == vault && View() == State(vault.tables, outerKek, innerKek, deadline, timeout)
    {
      this.vault := vault;
      this.outerKek := outerKek;
      this.innerKek := innerKek;
      this.deadline := deadline;
      this.timeout := timeout;
    }

    static method Create(vault: Vault, outer: Result<Key, ProviderError>, a: Authenticator, rand: InitRandom,
                         timeout: nat, now: int) returns (r: Result<Session, SessionError>)
      modifies vault
      ensures var spec := Initialize(old(vault.tables), outer, a, rand, timeout, now);
              && vault.tables == spec.0
              && (r.Ok? <==> spec.1.Ok?)
              && (r.Ok? ==> fresh(r.value) && r.value.vault == vault && r.value.View() == spec.1.value)
              && (r.Err? ==> r.error == spec.1.error)
    {
      if KdfSalt in vault.tables.meta {
        return Err(AlreadyInitialized);
      }
      if outer.Err? {
        return Err(ProviderErr(outer.error));
      }
      var credential := a.provision([]);
      if credential.Err? {
        return Err(ProviderErr(credential.error));
      }
      var primary := WrapFor(a, credential.value, rand.hmacSalt, rand.kdfSalt, rand.innerKek, rand.wrapNonce, "primary");
      if primary.Err? {
        return Err(primary.error);
      }
      var verifyBlob := SealVerification(rand.verifyId, rand.innerKek, outer.value, rand.verifyNonces.n1, rand.verifyNonces.n2);
      vault.WriteMetaBytes(KdfSalt, rand.kdfSalt);
      vault.WriteMetaBytes(HmacSalt, rand.hmacSalt);
      vault.WriteMetaBytes(Enrollments, ToCbor(EnrollmentsWire([primary.value])));
      vault.WriteMetaBytes(VerifyBlob, verifyBlob);
      vault.WriteMeta(VerifyId, UuidText(rand.verifyId));
      var session := new Session(vault, outer.value, Some(rand.innerKek), Some(now + timeout), timeout);
      r := Ok(session);
    }

    static method Reopen(vault: Vault, unsealed: Result<Key, ProviderError>, timeout: nat)
      returns (r: Result<Session, SessionError>)
      ensures var spec := OpenLocked(vault.tables, unsealed, timeout);
              && (r.Ok? <==> spec.Ok?)
              && (r.Ok? ==> fresh(r.value) && r.value.vault == vault && r.value.View() == spec.value)
              && (r.Err? ==> r.error == spec.error)
    {
      if KdfSalt !in vault.tables.meta {
        return Err(VaultErr(NotInitialized));
      }
      if unsealed.Err? {
        return Err(ProviderErr(unsealed.error));
      }
      var session := new Session(vault, unsealed.value, None, None, timeout);
      r := Ok(session);
    }

    method DoLock()
      modifies this
      ensures View() == Lock(old(View()))
    {
      innerKek := None;
      deadline := None;
    }

    method DoTick(now: int) returns (r: LockState)
      modifies this
      ensures (View(), r) == Tick(old(View()), now)
    {
      if innerKek.Some? && deadline.Some? {
        if now >= deadline.value {
          DoLock();
          r := Locked;
        } else {
          r := Unlocked(deadline.value - now);
        }
      } else {
        if innerKek.Some? {
          DoLock();
        }
        r := Locked;
      }
    }

    method DoTouch(now: int)
      modifies this
      ensures View() == Touch(old(View()), now)
    {
      if innerKek.Some? {
        deadline := Some(now + timeout);
      }
    }

    method EnsureUnlocked(now: int) returns (r: Result<(), SessionError>)
      modifies this
      ensures View() == Tick(old(View()), now).0
      ensures r.Ok? <==> innerKek.Some?
      ensures r.Err? ==> r.error == VaultLocked
    {
      var state := DoTick(now);
      r := if state.Unlocked? then Ok(()) else Err(VaultLocked);
    }

    method DoUnlock(a: Authenticator, now: int) returns (r: Result<(), SessionError>)
      modifies this
      ensures (View(), r) == Unlock(old(View()), a, now)
    {
      hide RequireMetaBytes, LoadEnrollments, CredentialIds, FindEnrollment, UnwrapKey, DeriveWrapKey, ParseUuid, VerifyKeys, FirstAnswer;
      var hmacSalt, kdfSalt := RequireMetaBytes(vault.tables, HmacSalt), RequireMetaBytes(vault.tables, KdfSalt);
      if hmacSalt.Err? {
        return Err(VaultErr(hmacSalt.error));
      }
      if kdfSalt.Err? {
        return Err(VaultErr(kdfSalt.error));
      }
      var es := LoadEnrollments(vault.tables);
      if es.Err? {
        return Err(es.error);
      }
      var answered := AssertFirstAvailable(a, CredentialIds(es.value), hmacSalt.value);
      if answered.Err? {
        return Err(ProviderErr(answered.error));
      }
      var enrollment := FindEnrollment(es.value, answered.value.0);
      if enrollment.None? {
        return Err(NoMatchingKey);
      }
      var unwrapped := UnwrapKey(DeriveWrapKey(answered.value.1, kdfSalt.value), enrollment.value.wrapBlob);
      if unwrapped.Err? {
        return Err(VerificationFailed);
      }
      var blob := RequireMetaBytes(vault.tables, VerifyBlob);
      if blob.Err? {
        return Err(VaultErr(blob.error));
      }
      if VerifyId !in vault.tables.meta || ParseUuid(vault.tables.meta[VerifyId]).None? {
        return Err(VaultErr(BadMeta(VerifyId)));
      }
      var id := ParseUuid(vault.tables.meta[VerifyId]).value;
      var verified := VerifyKeys(id, unwrapped.value, outerKek, blob.value);
      if verified != Ok(true) {
        return Err(VerificationFailed);
      }
      innerKek := Some(unwrapped.value);
      deadline := Some(now + timeout);
      r := Ok(());
    }

    method DoEnrollKey(a: Authenticator, given: string, nonce: Nonce, clock: Clock) returns (r: Result<(), SessionError>)
      modifies this, vault
      ensures (View(), r) == EnrollKey(old(View()), a, given, nonce, clock)
    {
      var unlocked := EnsureUnlocked(clock.check);
      if unlocked.Err? {
        return Err(VaultLocked);
      }
      var hmacSalt, kdfSalt := RequireMetaBytes(vault.tables, HmacSalt), RequireMetaBytes(vault.tables, KdfSalt);
      if hmacSalt.Err? {
        return Err(VaultErr(hmacSalt.error));
      }
      if kdfSalt.Err? {
        return Err(VaultErr(kdfSalt.error));
      }
      var es := LoadEnrollments(vault.tables);
      if es.Err? {
        return Err(es.error);
      }
      var credential := a.provision(CredentialIds(es.value));
      if credential.Err? {
        return Err(ProviderErr(credential.error));
      }
      if credential.value in CredentialIds(es.value) {
        return Err(AlreadyEnrolled);
      }
      var e := WrapFor(a, credential.value, hmacSalt.value, kdfSalt.value, innerKek.value, nonce, EnrollmentName(given, |es.value|));
      if e.Err? {
        return Err(e.error);
      }
      vault.WriteMetaBytes(Enrollments, ToCbor(EnrollmentsWire(es.value + [e.value])));
      DoTouch(clock.renew);
      r := Ok(());
    }

    /** Fills the vector row by row. */
    static method OpenAll(rows: seq<SecretRow>, inner: Key, outer: Key) returns (r: Result<seq<SecretMeta>, SessionError>)
      ensures r == OpenRows(rows, inner, outer)
    {
      var metas: seq<SecretMeta> := [];
      assert rows[0..] == rows;
      PrependNone(metas, OpenRows(rows, inner, outer));
      for i := 0 to |rows|
        invariant OpenRows(rows, inner, outer) == Prepended(metas, OpenRows(rows[i..], inner, outer))
      {
        assert rows[i..][1..] == rows[i + 1..];
        var got := OpenMeta(rows[i].metaId, rows[i].id, inner, outer, rows[i].metaBlob);
        if got.Err? {
          return Err(EnvelopeErr(got.error));
        }
        PrependOne(metas, got.value, OpenRows(rows[i + 1..], inner, outer));
        metas := metas + [got.value];
      }
      PrependNone(metas, OpenRows(rows, inner, outer));
      r := Ok(metas);
    }

    method DoList(lower: string -> string, now: int) returns (r: Result<seq<SecretMeta>, SessionError>, ghost keys: seq<Bytes>)
      modifies this
      ensures forall i | 0 <= i < |keys| :: keys[i] in vault.tables.rows
      ensures r != Err(VaultLocked) ==> RowOrder(vault.tables, keys)
      ensures (View(), r) == ListSecrets(old(View()), keys, lower, now)
    {
      keys := [];
      var unlocked := EnsureUnlocked(now);
      if unlocked.Err? {
        return Err(VaultLocked), keys;
      }
      var rows;
      rows, keys := vault.ListRows();
      assert rows == RowsOf(vault.tables, keys);
      var metas := OpenAll(rows, innerKek.value, outerKek);
      r := if metas.Err? then Err(metas.error) else Ok(StableSort.Sort(metas.value, ByName(lower)));
    }

    method DoMetaFor(id: Uuid, now: int) returns (r: Result<SecretMeta, SessionError>)
      modifies this
      ensures (View(), r) == MetaFor(old(View()), id, now)
    {
      if id !in vault.tables.rows {
        return Err(VaultErr(NotFound(id)));
      }
      var row := RowOf(vault.tables, id);
      var unlocked := EnsureUnlocked(now);
      if unlocked.Err? {
        return Err(VaultLocked);
      }
      var got := OpenMeta(row.metaId, row.id, innerKek.value, outerKek, row.metaBlob);
      r := if got.Err? then Err(EnvelopeErr(got.error)) else Ok(got.value);
    }

    method DoOpen(id: Uuid, clock: Clock) returns (r: Result<SecretPayload, SessionError>)
      modifies this
      ensures (View(), r) == OpenSecret(old(View()), id, clock)
    {
      if id !in vault.tables.rows {
        return Err(VaultErr(NotFound(id)));
      }
      var blob := vault.tables.rows[id].payloadBlob;
      var unlocked := EnsureUnlocked(clock.check);
      if unlocked.Err? {
        return Err(VaultLocked);
      }
      var got := OpenPayload(id, innerKek.value, outerKek, blob);
      if got.Err? {
        return Err(EnvelopeErr(got.error));
      }
      DoTouch(clock.renew);
      r := Ok(got.value);
    }

    method DoAdd(meta: SecretMeta, payload: SecretPayload, rand: SealRandom, clock: Clock) returns (r: Result<(), SessionError>)
      modifies this, vault
      ensures (View(), r) == Add(old(View()), meta, payload, rand, clock)
    {
      var unlocked := EnsureUnlocked(clock.check);
      if unlocked.Err? {
        return Err(VaultLocked);
      }
      var row := SealedRow(meta, payload, innerKek.value, outerKek, rand);
      var inserted := vault.InsertRow(meta.id, row.metaId, row.metaBlob, row.payloadBlob);
      if inserted.Err? {
        return Err(VaultErr(inserted.error));
      }
      DoTouch(clock.renew);
      r := Ok(());
    }

    method DoUpdate(meta: SecretMeta, payload: SecretPayload, rand: SealRandom, clock: Clock) returns (r: Result<(), SessionError>)
      modifies this, vault
      ensures (View(), r) == Update(old(View()), meta, payload, rand, clock)
    {
      var unlocked := EnsureUnlocked(clock.check);
      if unlocked.Err? {
        return Err(VaultLocked);
      }
      var row := SealedRow(meta, payload, innerKek.value, outerKek, rand);
      var updated := vault.UpdateRow(meta.id, row.metaId, row.metaBlob, row.payloadBlob);
      if updated.Err? {
        return Err(VaultErr(updated.error));
      }
      DoTouch(clock.renew);
      r := Ok(());
    }

    method DoDelete(id: Uuid) returns (r: Result<(), SessionError>)
      modifies vault
      ensures (View(), r) == Delete(old(View()), id)
    {
      var deleted := vault.Delete(id);
      r := if deleted.Err? then Err(VaultErr(deleted.error)) else Ok(());
    }
  }
}
