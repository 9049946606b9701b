/** Vault storage (`vault/db.rs`): a meta table of text and a table of sealed rows. */
module Db {
  import opened Common
  import opened Symbolic


  datatype VaultError = NotFound(id: Uuid) | NotInitialized | BadMeta(key: MetaKey) | Constraint

  // ---- Hex columns ------------------------------------------------------------

  function HexDigit(n: nat): char
    requires n < 16
  {
    if n < 10 then '0' + n as char else 'a' + (n - 10) as char
  }

  /** A digit of `from_str_radix(_, 16)`, in either case. */
  function HexValue(c: char): Option<nat> {
    if '0' <= c <= '9' then Some(c as int - '0' as int)
    else if 'a' <= c <= 'f' then Some(c as int - 'a' as int + 10)
    else if 'A' <= c <= 'F' then Some(c as int - 'A' as int + 10)
    else None
  }

  function HexPair(a: Atom): (r: TextValue)
    ensures |r| == 2
  {
    match a
    case Plain(b) => [Ch(HexDigit(b / 16)), Ch(HexDigit(b % 16))]
    case _ => [Nibble(a, true), Nibble(a, false)]
  }

  function EncodeHex(bytes: Bytes): TextValue {
    if bytes == [] then [] else HexPair(bytes[0]) + EncodeHex(bytes[1..])
  }

  method WriteHex(bytes: Bytes) returns (s: TextValue)
    ensures s == EncodeHex(bytes)
  {
    s := [];
    for i := 0 to |bytes|
      invariant EncodeHex(bytes) == s + EncodeHex(bytes[i..])
    {
      s := s + HexPair(bytes[i]);
    }
  }

  /** `u8::from_str_radix` on two characters. Rust also takes a leading plus sign, so "+f" is 15. */
  function ParsePair(g: Glyph, h: Glyph): Option<Atom> {
    if g.Ch? && h.Ch? then
      var c, d := g.c, HexValue(h.c);
      if d.None? then None
      else if c == '+' then Some(Plain(d.value))
      else if HexValue(c).None? then None
      else Some(Plain(16 * HexValue(c).value + d.value))
    else if g.Nibble? && h.Nibble? && g.high && !h.high && g.of == h.of && !g.of.Plain? then Some(g.of)
    else None
  }

  function DecodeHex(s: TextValue): Option<Bytes> {
    if s == [] then Some([])
    else if |s| == 1 then None
    else
      var first := ParsePair(s[0], s[1]);
      var rest := DecodeHex(s[2..]);
      if first.None? || rest.None? then None else Some([first.value] + rest.value)
  }

  lemma HexPairParses(a: Atom)
    ensures ParsePair(HexPair(a)[0], HexPair(a)[1]) == Some(a)
  {
  }

  /** Every stored byte string is read back. */
  lemma {:induction false} HexRoundTrip(bytes: Bytes)
    ensures DecodeHex(EncodeHex(bytes)) == Some(bytes)
    decreases |bytes|
  {
    if bytes != [] {
      HexRoundTrip(bytes[1..]);
      HexPairParses(bytes[0]);
      var s := EncodeHex(bytes);
      assert s[0] == HexPair(bytes[0])[0] && s[1] == HexPair(bytes[0])[1] && s[2..] == EncodeHex(bytes[1..]);
      assert bytes == [bytes[0]] + bytes[1..];
    }
  }

  /** The glyphs that the encoder itself writes. */
  predicate Canonical(g: Glyph) {
    match g
    case Ch(c) => '0' <= c <= '9' || 'a' <= c <= 'f'
    case Nibble(_, _) => true
  }

  lemma CanonicalPair(g: Glyph, h: Glyph)
    requires ParsePair(g, h).Some?
    ensures HexPair(ParsePair(g, h).value) == [g, h] <==> Canonical(g) && Canonical(h)
  {
  }

  /** Reading accepts more than writing produces: a text is what its own decoding re-encodes to
      exactly when it has no capital digit and no plus sign. */
  lemma {:induction false} HexTextRoundTrip(s: TextValue)
    requires DecodeHex(s).Some?
    ensures EncodeHex(DecodeHex(s).value) == s <==> forall i | 0 <= i < |s| :: Canonical(s[i])
    decreases |s|
  {
    if s != [] {
      var bytes := DecodeHex(s).value;
      CanonicalPair(s[0], s[1]);
      HexTextRoundTrip(s[2..]);
      assert bytes[1..] == DecodeHex(s[2..]).value;
      var again := EncodeHex(bytes);
      assert again == HexPair(bytes[0]) + EncodeHex(bytes[1..]);
      assert s == [s[0], s[1]] + s[2..];
      assert again[..2] == HexPair(bytes[0]) && again[2..] == EncodeHex(bytes[1..]);
      assert s[..2] == [s[0], s[1]];
      assert forall i | 2 <= i < |s| :: s[i] == s[2..][i - 2];
    }
  }

  // ---- Identifiers as text ----------------------------------------------------

  function Nil(): Uuid {
    seq(16, _ => Plain(0))
  }

  /** `parse_str(..).unwrap_or(nil)` on an id column. */
  function UuidColumn(b: Bytes): Uuid {
    if |b| == 16 then b else Nil()
  }

  function UuidText(id: Uuid): TextValue {
    EncodeHex(id[0..4]) + [Ch('-')] + EncodeHex(id[4..6]) + [Ch('-')] + EncodeHex(id[6..8]) + [Ch('-')]
    + EncodeHex(id[8..10]) + [Ch('-')] + EncodeHex(id[10..16])
  }

  predicate HasPlus(s: TextValue) {
    Ch('+') in s
  }

  function ParseUuid(s: TextValue): Option<Uuid> {
    if |s| != 36 || s[8] != Ch('-') || s[13] != Ch('-') || s[18] != Ch('-') || s[23] != Ch('-') || HasPlus(s) then None
    else
      var hex := DecodeHex(s[0..8] + s[9..13] + s[14..18] + s[19..23] + s[24..36]);
      if hex.Some? && |hex.value| == 16 then Some(hex.value) else None
  }

  lemma {:induction false} EncodeHexLength(b: Bytes)
    ensures |EncodeHex(b)| == 2 * |b| && !HasPlus(EncodeHex(b))
    decreases |b|
  {
    if b != [] {
      EncodeHexLength(b[1..]);
    }
  }

  lemma {:induction false} EncodeHexConcat(a: Bytes, b: Bytes)
    ensures EncodeHex(a + b) == EncodeHex(a) + EncodeHex(b)
    decreases |a|
  {
    if a == [] {
      assert a + b == b;
    } else {
      assert (a + b)[1..] == a[1..] + b;
      EncodeHexConcat(a[1..], b);
    }
  }

  lemma UuidPieces(a: TextValue, b: TextValue, c: TextValue, d: TextValue, e: TextValue)
    requires |a| == 8 && |b| == |c| == |d| == 4 && |e| == 12
    requires !HasPlus(a) && !HasPlus(b) && !HasPlus(c) && !HasPlus(d) && !HasPlus(e)
    ensures var s := a + [Ch('-')] + b + [Ch('-')] + c + [Ch('-')] + d + [Ch('-')] + e;
            && |s| == 36 && s[8] == s[13] == s[18] == s[23] == Ch('-') && !HasPlus(s)
            && s[0..8] + s[9..13] + s[14..18] + s[19..23] + s[24..36] == a + b + c + d + e
  {
    var s := a + [Ch('-')] + b + [Ch('-')] + c + [Ch('-')] + d + [Ch('-')] + e;
    assert s[0..8] == a && s[9..13] == b && s[14..18] == c && s[19..23] == d && s[24..36] == e;
  }

  /** The text form: the hex digits of the bytes in order, with hyphens after the 8th, 12th, 16th and 20th. */
  lemma UuidIsHyphenated(id: Uuid)
    ensures var s := UuidText(id);
            && |s| == 36 && s[8] == s[13] == s[18] == s[23] == Ch('-') && !HasPlus(s)
            && s[0..8] + s[9..13] + s[14..18] + s[19..23] + s[24..36] == EncodeHex(id)
  {
    hide EncodeHex, HasPlus;
    var a, b, c, d, e := id[0..4], id[4..6], id[6..8], id[8..10], id[10..16];
    EncodeHexLength(a); EncodeHexLength(b); EncodeHexLength(c); EncodeHexLength(d); EncodeHexLength(e);
    UuidPieces(EncodeHex(a), EncodeHex(b), EncodeHex(c), EncodeHex(d), EncodeHex(e));
    HexInFive(id);
  }

  lemma HexInFive(id: Uuid)
    ensures EncodeHex(id) == EncodeHex(id[0..4]) + EncodeHex(id[4..6]) + EncodeHex(id[6..8]) + EncodeHex(id[8..10]) + EncodeHex(id[10..16])
  {
    hide EncodeHex;
    EncodeHexConcat(id[0..4], id[4..6]);
    EncodeHexConcat(id[0..6], id[6..8]);
    EncodeHexConcat(id[0..8], id[8..10]);
    EncodeHexConcat(id[0..10], id[10..16]);
    assert id[0..6] == id[0..4] + id[4..6] && id[0..8] == id[0..6] + id[6..8];
    assert id[0..10] == id[0..8] + id[8..10] && id == id[0..10] + id[10..16];
  }

  lemma UuidRoundTrip(id: Uuid)
    ensures ParseUuid(UuidText(id)) == Some(id)
  {
    UuidIsHyphenated(id);
    hide EncodeHex, DecodeHex, UuidText;
    HexRoundTrip(id);
  }

  // ---- The tables -------------------------------------------------------------

  function GetMetaBytes(t: Tables, key: MetaKey): Result<Option<Bytes>, VaultError> {
    if key !in t.meta then Ok(None)
    else
      match DecodeHex(t.meta[key])
      case None => Err(BadMeta(key))
      case Some(bytes) => Ok(Some(bytes))
  }

  function RequireMetaBytes(t: Tables, key: MetaKey): Result<Bytes, VaultError> {
    match GetMetaBytes(t, key)
    case Err(e) => Err(e)
    case Ok(None) => Err(BadMeta(key))
    case Ok(Some(bytes)) => Ok(bytes)
  }

  function SetMeta(t: Tables, key: MetaKey, value: TextValue): Tables {
    t.(meta := t.meta[key := value])
  }

  function SetMetaBytes(t: Tables, key: MetaKey, value: Bytes): Tables {
    SetMeta(t, key, EncodeHex(value))
  }

  lemma MetaBytesRoundTrip(t: Tables, key: MetaKey, value: Bytes)
    requires key in t.meta && t.meta[key] == EncodeHex(value)
    ensures RequireMetaBytes(t, key) == Ok(value)
  {
    HexRoundTrip(value);
  }

  datatype SecretRow = SecretRow(id: Uuid, metaId: Uuid, metaBlob: Bytes)

  function RowOf(t: Tables, key: Bytes): SecretRow
    requires key in t.rows
  {
    SecretRow(UuidColumn(key), UuidColumn(t.rows[key].metaId), t.rows[key].metaBlob)
  }

  /** An order in which a query may return the rows: each key once. */
  ghost predicate RowOrder(t: Tables, keys: seq<Bytes>) {
    && (forall i | 0 <= i < |keys| :: keys[i] in t.rows)
    && (forall k | k in t.rows :: k in keys)
    && Distinct(keys)
  }

  /** The open database. */
  class Vault {
    var tables: Tables

    constructor (image: Tables)
      ensures tables == image
    {
      tables := image;
    }

    method WriteMeta(key: MetaKey, value: TextValue)
      modifies this
      ensures tables == SetMeta(old(tables), key, value)
    {
      tables := tables.(meta := tables.meta[key := value]);
    }

    method WriteMetaBytes(key: MetaKey, value: Bytes)
      modifies this
      ensures tables == SetMetaBytes(old(tables), key, value)
    {
      var hex := WriteHex(value);
      WriteMeta(key, hex);
    }

    /** A second row with the same id violates the primary key and changes nothing. */
    method InsertRow(id: Uuid, metaId: Uuid, metaBlob: Bytes, payloadBlob: Bytes) returns (r: Result<(), VaultError>)
      modifies this
      ensures r.Ok? <==> id !in old(tables).rows
      ensures r.Err? ==> r.error == Constraint && tables == old(tables)
      ensures r.Ok? ==> tables == old(tables).(rows := old(tables).rows[id := Row(metaId, metaBlob, payloadBlob)])
    {
      if id in tables.rows {
        return Err(Constraint);
      }
      tables := tables.(rows := tables.rows[id := Row(metaId, metaBlob, payloadBlob)]);
      r := Ok(());
    }

    method UpdateRow(id: Uuid, metaId: Uuid, metaBlob: Bytes, payloadBlob: Bytes) returns (r: Result<(), VaultError>)
      modifies this
      ensures r.Ok? <==> id in old(tables).rows
      ensures r.Err? ==> r.error == NotFound(id) && tables == old(tables)
      ensures r.Ok? ==> tables == old(tables).(rows := old(tables).rows[id := Row(metaId, metaBlob, payloadBlob)])
    {
      if id !in tables.rows {
        return Err(NotFound(id));
      }
      tables := tables.(rows := tables.rows[id := Row(metaId, metaBlob, payloadBlob)]);
      r := Ok(());
    }

    method Delete(id: Uuid) returns (r: Result<(), VaultError>)
      modifies this
      ensures r.Ok? <==> id in old(tables).rows
      ensures r.Err? ==> r.error == NotFound(id) && tables == old(tables)
      ensures r.Ok? ==> tables == old(tables).(rows := old(tables).rows - {id})
    {
      if id !in tables.rows {
        return Err(NotFound(id));
      }
      tables := tables.(rows := tables.rows - {id});
      r := Ok(());
    }

    /** Every row once, in an order that is not specified. */
    method ListRows() returns (rows: seq<SecretRow>, ghost keys: seq<Bytes>)
      ensures |rows| == |tables.rows.Keys| && forall k | k in tables.rows :: RowOf(tables, k) in rows
      ensures RowOrder(tables, keys) && |rows| == |keys|
      ensures forall i | 0 <= i < |keys| :: rows[i] == RowOf(tables, keys[i])
    {
      rows, keys := [], [];
      var left := tables.rows.Keys;
      while left != {}
        invariant left <= tables.rows.Keys
        invariant forall k | k in tables.rows :: k in left || k in keys
        invariant forall i | 0 <= i < |keys| :: keys[i] in tables.rows && keys[i] !in left
        invariant Distinct(keys) && |rows| == |keys| && |keys| + |left| == |tables.rows.Keys|
        invariant forall i | 0 <= i < |keys| :: rows[i] == RowOf(tables, keys[i])
        decreases left
      {
        var k :| k in left;
        rows := rows + [RowOf(tables, k)];
        keys := keys + [k];
        left := left - {k};
      }
      forall k | k in tables.rows ensures RowOf(tables, k) in rows {
        var i :| 0 <= i < |keys| && keys[i] == k;
        assert rows[i] == RowOf(tables, k);
      }
    }
  }
}
