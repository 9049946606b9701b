/** Symbolic byte strings.

    A byte is either a known value or one byte of a term: a derived key, a ciphertext, a serialised
    document. Lengths, slices and concatenations are those of real byte strings, so every framing
    decision of the program is kept, while the primitives are ideal: two terms are equal only when
    they were built from equal parts. No assumption about fixed-length strings is made. */
module Symbolic {
  import opened Common

  datatype Atom =
    | Plain(b: byte)
    | Expand(prk: seq<Atom>, info: seq<Atom>, i: nat)
    | Extract(salt: seq<Atom>, ikm: seq<Atom>, i: nat)
    | Sealed(key: seq<Atom>, nonce: seq<Atom>, aad: seq<Atom>, msg: seq<Atom>, i: nat)
    | Doc(value: Cbor)
    | Image(tables: Tables)

  type Bytes = seq<Atom>

  const KEY_LEN := 32
  const NONCE_LEN := 24
  const TAG_LEN := 16

  type Key = k: Bytes | |k| == KEY_LEN witness seq(KEY_LEN, _ => Plain(0))
  type Nonce = n: Bytes | |n| == NONCE_LEN witness seq(NONCE_LEN, _ => Plain(0))
  type Uuid = u: Bytes | |u| == 16 witness seq(16, _ => Plain(0))

  /** A CBOR document: only the shapes that the wire types use. */
  datatype Cbor =
    | Text(text: string)
    | Int(n: int)
    | Blob(bytes: Bytes)
    | List(items: seq<Cbor>)
    | Fields(fields: map<string, Cbor>)

  /** A character of a text column: an ordinary one, or a hex digit of a symbolic byte. */
  datatype Glyph = Ch(c: char) | Nibble(of: Atom, high: bool)

  type TextValue = seq<Glyph>

  datatype Row = Row(metaId: Bytes, metaBlob: Bytes, payloadBlob: Bytes)

  /** The keys of the meta table. */
  datatype MetaKey = KdfSalt | HmacSalt | Enrollments | VerifyBlob | VerifyId

  /** The two tables of the database file. */
  datatype Tables = Tables(meta: map<MetaKey, TextValue>, rows: map<Bytes, Row>)

  function Ascii(s: string): (r: Bytes)
    requires forall i | 0 <= i < |s| :: s[i] < '\U{80}'
    ensures |r| == |s| && forall i | 0 <= i < |s| :: r[i] == Plain(s[i] as int)
  {
    seq(|s|, i requires 0 <= i < |s| => Plain(s[i] as int))
  }

  function ToCbor(v: Cbor): Bytes {
    [Doc(v)]
  }

  function FromCbor(b: Bytes): Option<Cbor> {
    if |b| == 1 && b[0].Doc? then Some(b[0].value) else None
  }

  // ---- Authenticated encryption (section 2.8 of RFC 8439, extended nonce) -----

  /** The ciphertext is as long as the message and its 16-byte tag. */
  function Encrypt(key: Key, nonce: Nonce, aad: Bytes, msg: Bytes): (c: Bytes)
    ensures |c| == |msg| + TAG_LEN
  {
    seq(|msg| + TAG_LEN, i requires 0 <= i => Sealed(key, nonce, aad, msg, i))
  }

  function Decrypt(key: Key, nonce: Nonce, aad: Bytes, ct: Bytes): Option<Bytes> {
    if |ct| >= TAG_LEN && ct[0].Sealed? && ct == Encrypt(key, nonce, aad, ct[0].msg)
    then Some(ct[0].msg) else None
  }

  lemma DecryptIff(key: Key, nonce: Nonce, aad: Bytes, ct: Bytes, msg: Bytes)
    ensures Decrypt(key, nonce, aad, ct) == Some(msg) <==> ct == Encrypt(key, nonce, aad, msg)
  {
    var c := Encrypt(key, nonce, aad, msg);
    assert c[0] == Sealed(key, nonce, aad, msg, 0);
  }

  lemma EncryptInjective(k1: Key, n1: Nonce, a1: Bytes, m1: Bytes, k2: Key, n2: Nonce, a2: Bytes, m2: Bytes)
    requires Encrypt(k1, n1, a1, m1) == Encrypt(k2, n2, a2, m2)
    ensures k1 == k2 && n1 == n2 && a1 == a2 && m1 == m2
  {
    assert Encrypt(k1, n1, a1, m1)[0] == Sealed(k1, n1, a1, m1, 0);
    assert Encrypt(k2, n2, a2, m2)[0] == Sealed(k2, n2, a2, m2, 0);
  }

  /** Any byte of a ciphertext names the whole of it. */
  lemma OneByteNamesAll(key: Key, nonce: Nonce, aad: Bytes, msg: Bytes, ct: Bytes, j: nat, k: Key, n: Nonce, a: Bytes)
    requires j < |ct| && ct[j] == Sealed(key, nonce, aad, msg, j)
    ensures Decrypt(k, n, a, ct).Some? ==> ct == Encrypt(key, nonce, aad, msg)
  {
    if Decrypt(k, n, a, ct).Some? {
      var m := Decrypt(k, n, a, ct).value;
      DecryptIff(k, n, a, ct, m);
      assert ct[j] == Sealed(k, n, a, m, j);
    }
  }

  /** A ciphertext opens only under its own nonce. */
  lemma NonceBinds(key: Key, nonce: Nonce, aad: Bytes, msg: Bytes, k: Key, n: Nonce, a: Bytes)
    ensures Decrypt(k, n, a, Encrypt(key, nonce, aad, msg)).Some? ==> n == nonce
  {
    var ct := Encrypt(key, nonce, aad, msg);
    if Decrypt(k, n, a, ct).Some? {
      DecryptIff(k, n, a, ct, Decrypt(k, n, a, ct).value);
      EncryptInjective(key, nonce, aad, msg, k, n, a, Decrypt(k, n, a, ct).value);
    }
  }

  /** What stands after a nonce and its ciphertext when one byte of them is another. */
  lemma ChangedByteFails(key: Key, nonce: Nonce, aad: Bytes, msg: Bytes, i: nat, b: Atom)
    requires var framed := nonce + Encrypt(key, nonce, aad, msg); i < |framed| && framed[i] != b
    ensures var framed := (nonce + Encrypt(key, nonce, aad, msg))[i := b];
            Decrypt(key, framed[..NONCE_LEN], aad, framed[NONCE_LEN..]) == None
  {
    var ct := Encrypt(key, nonce, aad, msg);
    var framed := (nonce + ct)[i := b];
    if i < NONCE_LEN {
      assert framed[..NONCE_LEN] == nonce[i := b] && framed[NONCE_LEN..] == ct;
      assert nonce[i := b][i] != nonce[i];
      NonceBinds(key, nonce, aad, msg, key, framed[..NONCE_LEN], aad);
    } else {
      var ct' := ct[i - NONCE_LEN := b];
      assert framed[..NONCE_LEN] == nonce && framed[NONCE_LEN..] == ct';
      assert ct'[i - NONCE_LEN] != ct[i - NONCE_LEN];
      OneByteNamesAll(key, nonce, aad, msg, ct', if i == NONCE_LEN then 1 else 0, key, nonce, aad);
    }
  }

  lemma CutOffFails(key: Key, nonce: Nonce, aad: Bytes, msg: Bytes, n: nat)
    requires NONCE_LEN <= n < NONCE_LEN + |msg| + TAG_LEN
    ensures var framed := (nonce + Encrypt(key, nonce, aad, msg))[..n];
            framed[..NONCE_LEN] == nonce && Decrypt(key, nonce, aad, framed[NONCE_LEN..]) == None
  {
    var ct := Encrypt(key, nonce, aad, msg);
    var framed := (nonce + ct)[..n];
    assert framed[..NONCE_LEN] == nonce && framed[NONCE_LEN..] == ct[..n - NONCE_LEN];
    if n > NONCE_LEN {
      OneByteNamesAll(key, nonce, aad, msg, framed[NONCE_LEN..], 0, key, nonce, aad);
    }
  }

  // ---- HKDF (sections 2.2 and 2.3 of RFC 5869) --------------------------------

  function HkdfExpand(prk: Bytes, info: Bytes): Key {
    seq(KEY_LEN, i requires 0 <= i => Expand(prk, info, i))
  }

  function HkdfExtract(salt: Bytes, ikm: Bytes): Key {
    seq(KEY_LEN, i requires 0 <= i => Extract(salt, ikm, i))
  }

  lemma ExpandInjective(p1: Bytes, i1: Bytes, p2: Bytes, i2: Bytes)
    requires HkdfExpand(p1, i1) == HkdfExpand(p2, i2)
    ensures p1 == p2 && i1 == i2
  {
    assert HkdfExpand(p1, i1)[0] == Expand(p1, i1, 0);
    assert HkdfExpand(p2, i2)[0] == Expand(p2, i2, 0);
  }

  lemma ExtractInjective(s1: Bytes, k1: Bytes, s2: Bytes, k2: Bytes)
    requires HkdfExtract(s1, k1) == HkdfExtract(s2, k2)
    ensures s1 == s2 && k1 == k2
  {
    assert HkdfExtract(s1, k1)[0] == Extract(s1, k1, 0);
    assert HkdfExtract(s2, k2)[0] == Extract(s2, k2, 0);
  }
}
