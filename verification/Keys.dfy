/** Key derivation and the providers (`crypto/keys.rs`). */
module Keys {
  import opened Common
  import opened Symbolic

  const INFO_INNER_KEK := "sypherstore/v1/inner-kek"
  const INFO_SECRET_INNER := "sypherstore/v1/secret-inner/"
  const INFO_SECRET_OUTER := "sypherstore/v1/secret-outer/"
  const INFO_BACKUP := "sypherstore/v1/backup"

  function DeriveWrapKey(hmacSecret: Bytes, vaultSalt: Bytes): Key {
    HkdfExpand(HkdfExtract(vaultSalt, hmacSecret), Ascii(INFO_INNER_KEK))
  }

  function SubkeyInfo(prefix: string, id: Uuid): Bytes
    requires forall i | 0 <= i < |prefix| :: prefix[i] < '\U{80}'
  {
    Ascii(prefix) + id
  }

  function DeriveSecretInnerKey(innerKek: Key, id: Uuid): Key {
    HkdfExpand(innerKek, SubkeyInfo(INFO_SECRET_INNER, id))
  }

  function DeriveSecretOuterKey(outerKek: Key, id: Uuid): Key {
    HkdfExpand(outerKek, SubkeyInfo(INFO_SECRET_OUTER, id))
  }

  function BackupKey(outerKek: Key): Key {
    HkdfExpand(outerKek, Ascii(INFO_BACKUP))
  }

  /** The four kinds of expansion that the program ever asks of HKDF. */
  datatype Purpose = WrapPurpose | InnerPurpose(id: Uuid) | OuterPurpose(id: Uuid) | BackupPurpose

  function Info(p: Purpose): Bytes {
    match p
    case WrapPurpose => Ascii(INFO_INNER_KEK)
    case InnerPurpose(id) => SubkeyInfo(INFO_SECRET_INNER, id)
    case OuterPurpose(id) => SubkeyInfo(INFO_SECRET_OUTER, id)
    case BackupPurpose => Ascii(INFO_BACKUP)
  }

  /** The concatenated info strings are unambiguous: a derived key names its root, its purpose and
      its secret. */
  lemma DerivedKeysNeverCollide(k1: Key, p1: Purpose, k2: Key, p2: Purpose)
    ensures HkdfExpand(k1, Info(p1)) == HkdfExpand(k2, Info(p2)) <==> k1 == k2 && p1 == p2
  {
    if HkdfExpand(k1, Info(p1)) == HkdfExpand(k2, Info(p2)) {
      ExpandInjective(k1, Info(p1), k2, Info(p2));
      InfoInjective(p1, p2);
    }
  }

  lemma InfoInjective(p1: Purpose, p2: Purpose)
    requires Info(p1) == Info(p2)
    ensures p1 == p2
  {
    assert |Info(WrapPurpose)| == 24 && |Info(BackupPurpose)| == 21;
    if p1.InnerPurpose? || p1.OuterPurpose? {
      assert |Info(p1)| == 44;
      assert Info(p1)[22] == Plain((if p1.InnerPurpose? then 'i' else 'o') as int);
      assert p2.InnerPurpose? || p2.OuterPurpose?;
      assert Info(p2)[22] == Plain((if p2.InnerPurpose? then 'i' else 'o') as int);
      assert Info(p1)[28..] == p1.id && Info(p2)[28..] == p2.id;
    }
  }

  lemma WrapKeyInjective(h1: Bytes, s1: Bytes, h2: Bytes, s2: Bytes)
    requires DeriveWrapKey(h1, s1) == DeriveWrapKey(h2, s2)
    ensures h1 == h2 && s1 == s2
  {
    ExpandInjective(HkdfExtract(s1, h1), Ascii(INFO_INNER_KEK), HkdfExtract(s2, h2), Ascii(INFO_INNER_KEK));
    ExtractInjective(s1, h1, s2, h2);
  }

  // ---- Providers --------------------------------------------------------------

  datatype ProviderError = NoDevice | NotProvisioned | Timeout | Cancelled | Device | Corrupt

  /** An authenticator as the program sees it: what registering a credential returns, given the
      credentials to avoid, and the hmac-secret it answers for a credential and a salt. Answering is a
      function: the same question always gets the same answer. */
  datatype Authenticator = Authenticator(
    provision: seq<Bytes> -> Result<Bytes, ProviderError>,
    answer: (Bytes, Bytes) -> Result<Bytes, ProviderError>)

  /** The first credential of the list that the authenticator answers for, with its answer; the
      last refusal when it answers for none. */
  function FirstAnswer(a: Authenticator, ids: seq<Bytes>, salt: Bytes): Result<(Bytes, Bytes), ProviderError> {
    if ids == [] then Err(NoDevice)
    else
      match a.answer(ids[0], salt)
      case Ok(secret) => Ok((ids[0], secret))
      case Err(e) => if |ids| == 1 then Err(e) else FirstAnswer(a, ids[1..], salt)
  }

  /** The default `assert_first_available` loop. */
  method AssertFirstAvailable(a: Authenticator, ids: seq<Bytes>, salt: Bytes)
    returns (r: Result<(Bytes, Bytes), ProviderError>)
    ensures r == FirstAnswer(a, ids, salt)
  {
    var lastErr: Option<ProviderError> := None;
    var i := 0;
    while i < |ids|
      invariant 0 <= i <= |ids|
      invariant i < |ids| ==> FirstAnswer(a, ids, salt) == FirstAnswer(a, ids[i..], salt)
      invariant i == 0 ==> lastErr == None
      invariant i == |ids| > 0 ==> lastErr.Some? && FirstAnswer(a, ids, salt) == Err(lastErr.value)
    {
      assert ids[i..][1..] == ids[i + 1..];
      match a.answer(ids[i], salt) {
        case Ok(secret) => return Ok((ids[i], secret));
        case Err(e) => lastErr := Some(e);
      }
      i := i + 1;
    }
    r := Err(if lastErr.Some? then lastErr.value else NoDevice);
  }

  /** The loop answers for the first credential held, and fails only when none is held. */
  lemma {:induction false} FirstAnswerIsFirstHeld(a: Authenticator, ids: seq<Bytes>, salt: Bytes, k: nat)
    requires k < |ids| && a.answer(ids[k], salt).Ok?
    requires forall j | 0 <= j < k :: a.answer(ids[j], salt).Err?
    ensures FirstAnswer(a, ids, salt) == Ok((ids[k], a.answer(ids[k], salt).value))
    decreases k
  {
    if k > 0 {
      FirstAnswerIsFirstHeld(a, ids[1..], salt, k - 1);
    }
  }

  /** It fails exactly when none is held, with the refusal of the last one, or for want of any. */
  lemma {:induction false} FirstAnswerFails(a: Authenticator, ids: seq<Bytes>, salt: Bytes)
    ensures FirstAnswer(a, ids, salt).Err? <==> forall j | 0 <= j < |ids| :: a.answer(ids[j], salt).Err?
    ensures FirstAnswer(a, ids, salt).Err? ==>
              Err(FirstAnswer(a, ids, salt).error) == if ids == [] then Err(NoDevice) else a.answer(ids[|ids| - 1], salt)
    decreases |ids|
  {
    if ids != [] && a.answer(ids[0], salt).Err? {
      FirstAnswerFails(a, ids[1..], salt);
      assert forall j | 1 <= j < |ids| :: ids[j] == ids[1..][j - 1];
    }
  }
}
