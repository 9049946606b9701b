/** The double-encryption envelope (`crypto/envelope.rs`). */
module Envelope {
  import opened Common
  import opened Symbolic
  import opened Keys
  import opened Model

  const MAGIC := "SYPH"
  const VERSION: byte := 1
  const CIPHER: byte := 1
  const HEADER_LEN := 22
  const VERIFICATION_PLAINTEXT := "sypherstore-verify"
  const WRAP_AAD := "sypherstore/v1/inner-kek-wrap"

  datatype EnvelopeError =
    | BadMagic
    | UnsupportedVersion(version: Atom)
    | UnsupportedCipher(cipher: Atom)
    | Truncated(len: nat)
    | IdMismatch(expected: Uuid, found: Uuid)
    | DecryptFailed
    | Decode
    | BadKeyLength(got: nat)

  function BuildHeader(id: Uuid): (h: Bytes)
    ensures |h| == HEADER_LEN
  {
    Ascii(MAGIC) + [Plain(VERSION), Plain(CIPHER)] + id
  }

  /** The header, filled field by field into a 22-byte array as the program does. */
  method FillHeader(id: Uuid) returns (h: array<Atom>)
    ensures fresh(h) && h[..] == BuildHeader(id)
  {
    h := new Atom[HEADER_LEN](_ => Plain(0));
    h[0], h[1], h[2], h[3] := Plain('S' as int), Plain('Y' as int), Plain('P' as int), Plain('H' as int);
    h[4] := Plain(VERSION);
    h[5] := Plain(CIPHER);
    forall i | 0 <= i < 16 { h[6 + i] := id[i]; }
    assert h[..] == BuildHeader(id);
  }

  function ParseHeader(blob: Bytes): Result<Uuid, EnvelopeError> {
    if |blob| < HEADER_LEN + NONCE_LEN + TAG_LEN then Err(Truncated(|blob|))
    else if blob[0..4] != Ascii(MAGIC) then Err(BadMagic)
    else if blob[4] != Plain(VERSION) then Err(UnsupportedVersion(blob[4]))
    else if blob[5] != Plain(CIPHER) then Err(UnsupportedCipher(blob[5]))
    else Ok(blob[6..22])
  }

  lemma HeaderNamesItsId(blob: Bytes, id: Uuid)
    ensures ParseHeader(blob) == Ok(id)
       <==> |blob| >= HEADER_LEN + NONCE_LEN + TAG_LEN && blob[..HEADER_LEN] == BuildHeader(id)
  {
    if |blob| >= HEADER_LEN + NONCE_LEN + TAG_LEN {
      var h := blob[..HEADER_LEN];
      assert h == h[0..4] + [h[4], h[5]] + h[6..22];
      assert h[0..4] == blob[0..4] && h[6..22] == blob[6..22];
      if h == BuildHeader(id) {
        assert h[0..4] == Ascii(MAGIC) && h[6..22] == id;
        assert h[4] == Plain(VERSION) && h[5] == Plain(CIPHER);
      }
    }
  }

  lemma HeaderInjective(a: Uuid, b: Uuid)
    requires BuildHeader(a) == BuildHeader(b)
    ensures a == b
  {
    assert BuildHeader(a)[6..] == a && BuildHeader(b)[6..] == b;
  }

  // ---- Both layers ------------------------------------------------------------

  function InnerLayer(id: Uuid, inner: Key, n1: Nonce, plaintext: Bytes): Bytes {
    n1 + Encrypt(DeriveSecretInnerKey(inner, id), n1, BuildHeader(id), plaintext)
  }

  function SealBytes(id: Uuid, inner: Key, outer: Key, n1: Nonce, n2: Nonce, plaintext: Bytes): Bytes {
    BuildHeader(id) + n2
    + Encrypt(DeriveSecretOuterKey(outer, id), n2, BuildHeader(id), InnerLayer(id, inner, n1, plaintext))
  }

  function OpenBytes(id: Uuid, inner: Key, outer: Key, blob: Bytes): Result<Bytes, EnvelopeError> {
    match ParseHeader(blob)
    case Err(e) => Err(e)
    case Ok(found) =>
      if found != id then Err(IdMismatch(id, found))
      else
        var header := blob[..HEADER_LEN];
        var n2 := blob[HEADER_LEN..HEADER_LEN + NONCE_LEN];
        var c2 := blob[HEADER_LEN + NONCE_LEN..];
        match Decrypt(DeriveSecretOuterKey(outer, id), n2, header, c2)
        case None => Err(DecryptFailed)
        case Some(framed) =>
          if |framed| < NONCE_LEN + TAG_LEN then Err(Truncated(|framed|))
          else
            var n1, c1 := framed[..NONCE_LEN], framed[NONCE_LEN..];
            match Decrypt(DeriveSecretInnerKey(inner, id), n1, header, c1)
            case None => Err(DecryptFailed)
            case Some(plaintext) => Ok(plaintext)
  }

  /** Round trip: what was sealed is what is got, for every plaintext. */
  lemma OpenSealed(id: Uuid, inner: Key, outer: Key, n1: Nonce, n2: Nonce, plaintext: Bytes)
    ensures OpenBytes(id, inner, outer, SealBytes(id, inner, outer, n1, n2, plaintext)) == Ok(plaintext)
  {
    var header := BuildHeader(id);
    var framed := InnerLayer(id, inner, n1, plaintext);
    var c2 := Encrypt(DeriveSecretOuterKey(outer, id), n2, header, framed);
    var blob := SealBytes(id, inner, outer, n1, n2, plaintext);
    assert blob == header + n2 + c2;
    assert blob[..HEADER_LEN] == header;
    assert blob[HEADER_LEN..HEADER_LEN + NONCE_LEN] == n2;
    assert blob[HEADER_LEN + NONCE_LEN..] == c2;
    HeaderNamesItsId(blob, id);
    DecryptIff(DeriveSecretOuterKey(outer, id), n2, header, c2, framed);
    var c1 := Encrypt(DeriveSecretInnerKey(inner, id), n1, header, plaintext);
    assert framed[..NONCE_LEN] == n1 && framed[NONCE_LEN..] == c1;
    DecryptIff(DeriveSecretInnerKey(inner, id), n1, header, c1, plaintext);
  }

  /** The exact inverse image of sealing: a blob opens to a plaintext if and only if it is that
      plaintext sealed for this id under both of these keys. */
  lemma OpensOnlyWhatWasSealed(id: Uuid, inner: Key, outer: Key, blob: Bytes, plaintext: Bytes)
    ensures OpenBytes(id, inner, outer, blob) == Ok(plaintext)
       <==> exists n1: Nonce, n2: Nonce :: blob == SealBytes(id, inner, outer, n1, n2, plaintext)
  {
    if n1: Nonce, n2: Nonce :| blob == SealBytes(id, inner, outer, n1, n2, plaintext) {
      OpenSealed(id, inner, outer, n1, n2, plaintext);
    }
    if OpenBytes(id, inner, outer, blob) == Ok(plaintext) {
      HeaderNamesItsId(blob, id);
      var header := blob[..HEADER_LEN];
      var n2: Nonce := blob[HEADER_LEN..HEADER_LEN + NONCE_LEN];
      var c2 := blob[HEADER_LEN + NONCE_LEN..];
      var framed := Decrypt(DeriveSecretOuterKey(outer, id), n2, header, c2).value;
      DecryptIff(DeriveSecretOuterKey(outer, id), n2, header, c2, framed);
      var n1: Nonce, c1 := framed[..NONCE_LEN], framed[NONCE_LEN..];
      DecryptIff(DeriveSecretInnerKey(inner, id), n1, header, c1, plaintext);
      assert framed == n1 + c1;
      assert blob == header + n2 + c2;
      assert blob == SealBytes(id, inner, outer, n1, n2, plaintext);
    }
  }

  /** A sealed blob names everything it was sealed with. */
  lemma SealInjective(id: Uuid, inner: Key, outer: Key, n1: Nonce, n2: Nonce, m: Bytes,
                      id': Uuid, inner': Key, outer': Key, n1': Nonce, n2': Nonce, m': Bytes)
    requires SealBytes(id, inner, outer, n1, n2, m) == SealBytes(id', inner', outer', n1', n2', m')
    ensures id == id' && inner == inner' && outer == outer' && n1 == n1' && n2 == n2' && m == m'
  {
    var a, b := SealBytes(id, inner, outer, n1, n2, m), SealBytes(id', inner', outer', n1', n2', m');
    assert a[..HEADER_LEN] == BuildHeader(id) && b[..HEADER_LEN] == BuildHeader(id');
    HeaderInjective(id, id');
    var o, o' := DeriveSecretOuterKey(outer, id), DeriveSecretOuterKey(outer', id');
    var f, f' := InnerLayer(id, inner, n1, m), InnerLayer(id', inner', n1', m');
    assert a[HEADER_LEN + NONCE_LEN..] == Encrypt(o, n2, BuildHeader(id), f);
    assert b[HEADER_LEN + NONCE_LEN..] == Encrypt(o', n2', BuildHeader(id'), f');
    EncryptInjective(o, n2, BuildHeader(id), f, o', n2', BuildHeader(id'), f');
    DerivedKeysNeverCollide(outer, OuterPurpose(id), outer', OuterPurpose(id'));
    assert f[..NONCE_LEN] == n1 && f'[..NONCE_LEN] == n1';
    var i, i' := DeriveSecretInnerKey(inner, id), DeriveSecretInnerKey(inner', id');
    assert f[NONCE_LEN..] == Encrypt(i, n1, BuildHeader(id), m);
    assert f'[NONCE_LEN..] == Encrypt(i', n1', BuildHeader(id'), m');
    EncryptInjective(i, n1, BuildHeader(id), m, i', n1', BuildHeader(id'), m');
    DerivedKeysNeverCollide(inner, InnerPurpose(id), inner', InnerPurpose(id'));
  }

  /** Binding: a sealed blob opens for its own id, inner key and outer key, and for nothing else. */
  lemma SealBinds(id: Uuid, inner: Key, outer: Key, n1: Nonce, n2: Nonce, m: Bytes,
                  id': Uuid, inner': Key, outer': Key)
    ensures OpenBytes(id', inner', outer', SealBytes(id, inner, outer, n1, n2, m)).Ok?
       <==> id' == id && inner' == inner && outer' == outer
  {
    var blob := SealBytes(id, inner, outer, n1, n2, m);
    OpenSealed(id, inner, outer, n1, n2, m);
    if OpenBytes(id', inner', outer', blob).Ok? {
      var m' := OpenBytes(id', inner', outer', blob).value;
      OpensOnlyWhatWasSealed(id', inner', outer', blob, m');
      var n1': Nonce, n2': Nonce :| blob == SealBytes(id', inner', outer', n1', n2', m');
      SealInjective(id, inner, outer, n1, n2, m, id', inner', outer', n1', n2', m');
    }
  }

  /** Rewriting the id in the header of a blob does not make it open for that id: the outer layer refuses
      it under every pair of keys. What a blob does in another row is the subject of `MovedBlobs`. */
  lemma RetargetedBlobFails(id: Uuid, inner: Key, outer: Key, n1: Nonce, n2: Nonce, m: Bytes,
                            id': Uuid, inner': Key, outer': Key)
    requires id' != id
    ensures var moved := BuildHeader(id') + SealBytes(id, inner, outer, n1, n2, m)[HEADER_LEN..];
            OpenBytes(id', inner', outer', moved) == Err(DecryptFailed)
  {
    var blob := SealBytes(id, inner, outer, n1, n2, m);
    var moved := BuildHeader(id') + blob[HEADER_LEN..];
    assert moved[..HEADER_LEN] == BuildHeader(id');
    HeaderNamesItsId(moved, id');
    var c2 := Encrypt(DeriveSecretOuterKey(outer, id), n2, BuildHeader(id), InnerLayer(id, inner, n1, m));
    assert blob[HEADER_LEN..] == n2 + c2;
    assert moved[HEADER_LEN..HEADER_LEN + NONCE_LEN] == n2;
    assert moved[HEADER_LEN + NONCE_LEN..] == c2;
    var got := Decrypt(DeriveSecretOuterKey(outer', id'), n2, BuildHeader(id'), c2);
    if got.Some? {
      DecryptIff(DeriveSecretOuterKey(outer', id'), n2, BuildHeader(id'), c2, got.value);
      EncryptInjective(DeriveSecretOuterKey(outer, id), n2, BuildHeader(id), InnerLayer(id, inner, n1, m),
                       DeriveSecretOuterKey(outer', id'), n2, BuildHeader(id'), got.value);
      HeaderInjective(id, id');
    }
  }

  /** The outer key alone peels off the outer layer, and what is under it is a ciphertext of the inner key; the
      inner key alone opens nothing. */
  lemma LayersInOrder(id: Uuid, inner: Key, outer: Key, n1: Nonce, n2: Nonce, m: Bytes, k: Key)
    ensures var c2 := SealBytes(id, inner, outer, n1, n2, m)[HEADER_LEN + NONCE_LEN..];
            && Decrypt(DeriveSecretOuterKey(outer, id), n2, BuildHeader(id), c2)
               == Some(n1 + Encrypt(DeriveSecretInnerKey(inner, id), n1, BuildHeader(id), m))
            && (k != DeriveSecretOuterKey(outer, id) ==> Decrypt(k, n2, BuildHeader(id), c2) == None)
            && (k != DeriveSecretInnerKey(inner, id) ==>
                  Decrypt(k, n1, BuildHeader(id), Encrypt(DeriveSecretInnerKey(inner, id), n1, BuildHeader(id), m)) == None)
  {
    var header, framed := BuildHeader(id), InnerLayer(id, inner, n1, m);
    var c2 := Encrypt(DeriveSecretOuterKey(outer, id), n2, header, framed);
    assert SealBytes(id, inner, outer, n1, n2, m) == header + n2 + c2;
    assert SealBytes(id, inner, outer, n1, n2, m)[HEADER_LEN + NONCE_LEN..] == c2;
    hide SealBytes, DeriveSecretOuterKey, DeriveSecretInnerKey, BuildHeader;
    DecryptIff(DeriveSecretOuterKey(outer, id), n2, header, c2, framed);
    OnlyItsKey(DeriveSecretOuterKey(outer, id), n2, header, framed, k);
    OnlyItsKey(DeriveSecretInnerKey(inner, id), n1, header, m, k);
  }

  lemma OnlyItsKey(key: Key, nonce: Nonce, aad: Bytes, msg: Bytes, k: Key)
    ensures k != key ==> Decrypt(k, nonce, aad, Encrypt(key, nonce, aad, msg)) == None
  {
    var ct := Encrypt(key, nonce, aad, msg);
    if Decrypt(k, nonce, aad, ct).Some? {
      DecryptIff(k, nonce, aad, ct, Decrypt(k, nonce, aad, ct).value);
      EncryptInjective(key, nonce, aad, msg, k, nonce, aad, Decrypt(k, nonce, aad, ct).value);
    }
  }

  lemma SealedParts(id: Uuid, inner: Key, outer: Key, n1: Nonce, n2: Nonce, m: Bytes)
    ensures var blob := SealBytes(id, inner, outer, n1, n2, m);
            && blob[..HEADER_LEN] == BuildHeader(id)
            && blob[HEADER_LEN..] == n2 + Encrypt(DeriveSecretOuterKey(outer, id), n2, BuildHeader(id), InnerLayer(id, inner, n1, m))
            && |blob| == HEADER_LEN + NONCE_LEN + TAG_LEN + NONCE_LEN + TAG_LEN + |m|
  {
    var blob := SealBytes(id, inner, outer, n1, n2, m);
    var rest := n2 + Encrypt(DeriveSecretOuterKey(outer, id), n2, BuildHeader(id), InnerLayer(id, inner, n1, m));
    assert blob == BuildHeader(id) + rest;
  }

  lemma ParsesBy(blob: Bytes, id: Uuid)
    requires |blob| >= HEADER_LEN + NONCE_LEN + TAG_LEN && blob[..HEADER_LEN] == BuildHeader(id)
    ensures blob[0..4] == Ascii(MAGIC) && blob[4] == Plain(VERSION) && blob[5] == Plain(CIPHER) && blob[6..22] == id
  {
    assert blob[0..4] == blob[..HEADER_LEN][0..4] && blob[6..22] == blob[..HEADER_LEN][6..22];
    assert blob[4] == blob[..HEADER_LEN][4] && blob[5] == blob[..HEADER_LEN][5];
  }

  /** Every byte of a sealed blob matters: whichever is changed, and to whatever, opening reports it, and by
      the error of the field that it belongs to. */
  lemma EveryByteMatters(id: Uuid, inner: Key, outer: Key, n1: Nonce, n2: Nonce, m: Bytes, i: nat, b: Atom)
    requires i < |SealBytes(id, inner, outer, n1, n2, m)| && SealBytes(id, inner, outer, n1, n2, m)[i] != b
    ensures OpenBytes(id, inner, outer, SealBytes(id, inner, outer, n1, n2, m)[i := b])
         == Err(if i < 4 then BadMagic else if i == 4 then UnsupportedVersion(b) else if i == 5 then UnsupportedCipher(b)
                else if i < HEADER_LEN then IdMismatch(id, id[i - 6 := b]) else DecryptFailed)
  {
    hide SealBytes, BuildHeader, InnerLayer, DeriveSecretOuterKey;
    var blob := SealBytes(id, inner, outer, n1, n2, m);
    var changed := blob[i := b];
    SealedParts(id, inner, outer, n1, n2, m);
    ParsesBy(blob, id);
    if i < 4 {
      assert changed[0..4][i] != blob[0..4][i];
    } else if i < 6 {
      assert changed[0..4] == blob[0..4];
    } else if i < HEADER_LEN {
      assert changed[0..4] == blob[0..4];
      assert changed[6..22] == id[i - 6 := b];
      assert changed[6..22][i - 6] == b != id[i - 6];
    } else {
      var key, framed := DeriveSecretOuterKey(outer, id), InnerLayer(id, inner, n1, m);
      assert changed[..HEADER_LEN] == blob[..HEADER_LEN];
      ParsesBy(changed, id);
      var rest := n2 + Encrypt(key, n2, BuildHeader(id), framed);
      assert changed[HEADER_LEN..] == rest[i - HEADER_LEN := b];
      ChangedByteFails(key, n2, BuildHeader(id), framed, i - HEADER_LEN, b);
      assert changed[HEADER_LEN..HEADER_LEN + NONCE_LEN] == changed[HEADER_LEN..][..NONCE_LEN];
      assert changed[HEADER_LEN + NONCE_LEN..] == changed[HEADER_LEN..][NONCE_LEN..];
    }
  }

  /** A blob that was cut off is refused, as too short or by its tag. */
  lemma CutOffBlobFails(id: Uuid, inner: Key, outer: Key, n1: Nonce, n2: Nonce, m: Bytes, n: nat)
    requires n < |SealBytes(id, inner, outer, n1, n2, m)|
    ensures OpenBytes(id, inner, outer, SealBytes(id, inner, outer, n1, n2, m)[..n])
         == Err(if n < HEADER_LEN + NONCE_LEN + TAG_LEN then Truncated(n) else DecryptFailed)
  {
    hide SealBytes, BuildHeader, InnerLayer, DeriveSecretOuterKey;
    var blob := SealBytes(id, inner, outer, n1, n2, m);
    var cut := blob[..n];
    SealedParts(id, inner, outer, n1, n2, m);
    if n >= HEADER_LEN + NONCE_LEN + TAG_LEN {
      var key, framed := DeriveSecretOuterKey(outer, id), InnerLayer(id, inner, n1, m);
      assert cut[..HEADER_LEN] == blob[..HEADER_LEN];
      ParsesBy(cut, id);
      InnerLayerLength(id, inner, n1, m);
      CutOffFails(key, n2, BuildHeader(id), framed, n - HEADER_LEN);
      assert cut[HEADER_LEN..] == blob[HEADER_LEN..][..n - HEADER_LEN];
      assert cut[HEADER_LEN..HEADER_LEN + NONCE_LEN] == cut[HEADER_LEN..][..NONCE_LEN];
      assert cut[HEADER_LEN + NONCE_LEN..] == cut[HEADER_LEN..][NONCE_LEN..];
    }
  }

  lemma InnerLayerLength(id: Uuid, inner: Key, n1: Nonce, m: Bytes)
    ensures |InnerLayer(id, inner, n1, m)| == NONCE_LEN + TAG_LEN + |m|
  {
  }

  // ---- The wrapped inner key --------------------------------------------------

  function WrapKey(wrap: Key, inner: Key, nonce: Nonce): Bytes {
    nonce + Encrypt(wrap, nonce, Ascii(WRAP_AAD), inner)
  }

  function UnwrapKey(wrap: Key, blob: Bytes): Result<Key, EnvelopeError> {
    if |blob| < NONCE_LEN + TAG_LEN then Err(Truncated(|blob|))
    else
      match Decrypt(wrap, blob[..NONCE_LEN], Ascii(WRAP_AAD), blob[NONCE_LEN..])
      case None => Err(DecryptFailed)
      case Some(plaintext) => if |plaintext| != KEY_LEN then Err(BadKeyLength(|plaintext|)) else Ok(plaintext)
  }

  /** A wrap blob gives up a key exactly when it is that key wrapped under this very wrap key. */
  lemma UnwrapsOnlyWhatWasWrapped(wrap: Key, blob: Bytes, inner: Key)
    ensures UnwrapKey(wrap, blob) == Ok(inner) <==> exists nonce: Nonce :: blob == WrapKey(wrap, inner, nonce)
  {
    if nonce: Nonce :| blob == WrapKey(wrap, inner, nonce) {
      assert blob[..NONCE_LEN] == nonce && blob[NONCE_LEN..] == Encrypt(wrap, nonce, Ascii(WRAP_AAD), inner);
      DecryptIff(wrap, nonce, Ascii(WRAP_AAD), blob[NONCE_LEN..], inner);
    }
    if UnwrapKey(wrap, blob) == Ok(inner) {
      var nonce: Nonce := blob[..NONCE_LEN];
      DecryptIff(wrap, nonce, Ascii(WRAP_AAD), blob[NONCE_LEN..], inner);
      assert blob == nonce + blob[NONCE_LEN..];
      assert blob == WrapKey(wrap, inner, nonce);
    }
  }

  lemma WrapBinds(wrap: Key, inner: Key, nonce: Nonce, wrap': Key)
    ensures UnwrapKey(wrap', WrapKey(wrap, inner, nonce)) == if wrap' == wrap then Ok(inner) else Err(DecryptFailed)
  {
    var blob := WrapKey(wrap, inner, nonce);
    UnwrapsOnlyWhatWasWrapped(wrap, blob, inner);
    assert blob[..NONCE_LEN] == nonce && blob[NONCE_LEN..] == Encrypt(wrap, nonce, Ascii(WRAP_AAD), inner);
    var got := Decrypt(wrap', nonce, Ascii(WRAP_AAD), blob[NONCE_LEN..]);
    if got.Some? {
      DecryptIff(wrap', nonce, Ascii(WRAP_AAD), blob[NONCE_LEN..], got.value);
      EncryptInjective(wrap, nonce, Ascii(WRAP_AAD), inner, wrap', nonce, Ascii(WRAP_AAD), got.value);
    }
  }

  // ---- Verification -----------------------------------------------------------

  function SealVerification(id: Uuid, inner: Key, outer: Key, n1: Nonce, n2: Nonce): Bytes {
    SealBytes(id, inner, outer, n1, n2, Ascii(VERIFICATION_PLAINTEXT))
  }

  function VerifyKeys(id: Uuid, inner: Key, outer: Key, blob: Bytes): Result<bool, EnvelopeError> {
    match OpenBytes(id, inner, outer, blob)
    case Err(e) => Err(e)
    case Ok(plaintext) => Ok(plaintext == Ascii(VERIFICATION_PLAINTEXT))
  }

  /** The verification blob accepts exactly the pair of keys it was made from. */
  lemma VerificationIsExact(id: Uuid, inner: Key, outer: Key, n1: Nonce, n2: Nonce, inner': Key, outer': Key)
    ensures var blob := SealVerification(id, inner, outer, n1, n2);
            VerifyKeys(id, inner', outer', blob) == Ok(true) <==> inner' == inner && outer' == outer
    ensures VerifyKeys(id, inner', outer', SealVerification(id, inner, outer, n1, n2)) != Ok(false)
  {
    SealBinds(id, inner, outer, n1, n2, Ascii(VERIFICATION_PLAINTEXT), id, inner', outer');
    OpenSealed(id, inner, outer, n1, n2, Ascii(VERIFICATION_PLAINTEXT));
  }

  // ---- Structured contents ----------------------------------------------------

  datatype Nonces = Nonces(n1: Nonce, n2: Nonce)

  function SealPayload(id: Uuid, inner: Key, outer: Key, n: Nonces, payload: SecretPayload): Bytes {
    SealBytes(id, inner, outer, n.n1, n.n2, ToCbor(PayloadWire(payload)))
  }

  function OpenPayload(id: Uuid, inner: Key, outer: Key, blob: Bytes): Result<SecretPayload, EnvelopeError> {
    match OpenBytes(id, inner, outer, blob)
    case Err(e) => Err(e)
    case Ok(cbor) =>
      match FromCbor(cbor)
      case None => Err(Decode)
      case Some(wire) => if PayloadOfWire(wire).None? then Err(Decode) else Ok(PayloadOfWire(wire).value)
  }

  function SealMeta(metaId: Uuid, inner: Key, outer: Key, n: Nonces, meta: SecretMeta): Bytes {
    SealBytes(metaId, inner, outer, n.n1, n.n2, ToCbor(MetaWire(meta)))
  }

  function OpenMeta(metaId: Uuid, id: Uuid, inner: Key, outer: Key, blob: Bytes): Result<SecretMeta, EnvelopeError> {
    match OpenBytes(metaId, inner, outer, blob)
    case Err(e) => Err(e)
    case Ok(cbor) =>
      match FromCbor(cbor)
      case None => Err(Decode)
      case Some(wire) => if MetaOfWire(id, wire).None? then Err(Decode) else Ok(MetaOfWire(id, wire).value)
  }

  lemma PayloadOpens(id: Uuid, inner: Key, outer: Key, n: Nonces, payload: SecretPayload)
    ensures OpenPayload(id, inner, outer, SealPayload(id, inner, outer, n, payload)) == Ok(payload)
  {
    OpenSealed(id, inner, outer, n.n1, n.n2, ToCbor(PayloadWire(payload)));
    PayloadRoundTrip(payload);
  }

  lemma MetaOpens(metaId: Uuid, inner: Key, outer: Key, n: Nonces, meta: SecretMeta)
    ensures OpenMeta(metaId, meta.id, inner, outer, SealMeta(metaId, inner, outer, n, meta)) == Ok(meta)
  {
    OpenSealed(metaId, inner, outer, n.n1, n.n2, ToCbor(MetaWire(meta)));
    MetaRoundTrip(meta);
  }
}
