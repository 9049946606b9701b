/** Blobs that stand in another row than the one they were sealed for (`crypto/envelope.rs`,
    `vault/session.rs`).

    A payload is opened under the id of its row, metadata under the id that the row stores beside it. So a
    payload stays with its row, and metadata goes wherever its id goes. */
module MovedBlobs {
  import opened Common
  import opened Symbolic
  import opened Envelope
  import opened Model
  import opened Sessions
  import opened VaultRuns

  // ---- One blob ---------------------------------------------------------------------------------

  lemma SealedHeader(id: Uuid, inner: Key, outer: Key, n1: Nonce, n2: Nonce, m: Bytes, expected: Uuid)
    requires expected != id
    ensures OpenBytes(expected, inner, outer, SealBytes(id, inner, outer, n1, n2, m)) == Err(IdMismatch(expected, id))
  {
    var blob := SealBytes(id, inner, outer, n1, n2, m);
    assert blob[..HEADER_LEN] == BuildHeader(id);
    hide SealBytes, BuildHeader;
    HeaderNamesItsId(blob, id);
  }

  /** A payload blob opens in a row exactly when it was sealed for the id of that row. */
  lemma PayloadOpensInItsRowOnly(id: Uuid, inner: Key, outer: Key, n: Nonces, payload: SecretPayload, row: Uuid)
    ensures OpenPayload(row, inner, outer, SealPayload(id, inner, outer, n, payload))
         == if row == id then Ok(payload) else Err(IdMismatch(row, id))
  {
    if row == id {
      PayloadOpens(id, inner, outer, n, payload);
    } else {
      SealedHeader(id, inner, outer, n.n1, n.n2, ToCbor(PayloadWire(payload)), row);
    }
  }

  lemma WireHasNoId(meta: SecretMeta, row: Uuid)
    ensures MetaWire(meta.(id := row)) == MetaWire(meta)
  {
  }

  /** A metadata blob opens in any row, exactly when the id beside it is the one that it was sealed under;
      it then describes that row. */
  lemma MetaOpensBesideItsId(metaId: Uuid, inner: Key, outer: Key, n: Nonces, meta: SecretMeta, beside: Uuid, row: Uuid)
    ensures OpenMeta(beside, row, inner, outer, SealMeta(metaId, inner, outer, n, meta))
         == if beside == metaId then Ok(meta.(id := row)) else Err(IdMismatch(beside, metaId))
  {
    hide MetaWire;
    if beside == metaId {
      WireHasNoId(meta, row);
      MetaOpens(metaId, inner, outer, n, meta.(id := row));
    } else {
      SealedHeader(metaId, inner, outer, n.n1, n.n2, ToCbor(MetaWire(meta)), beside);
    }
  }

  lemma WiresDiffer(meta: SecretMeta, payload: SecretPayload, row: Uuid)
    ensures PayloadOfWire(MetaWire(meta)) == None && MetaOfWire(row, PayloadWire(payload)) == None
  {
    hide AsStr;
    assert "v" !in MetaWire(meta).fields;
  }

  /** Neither kind opens in the place of the other, whatever ids are beside them. */
  lemma NeitherInTheOthersPlace(id: Uuid, metaId: Uuid, inner: Key, outer: Key, n: Nonces, meta: SecretMeta, payload: SecretPayload,
                                beside: Uuid, row: Uuid)
    ensures OpenPayload(row, inner, outer, SealMeta(metaId, inner, outer, n, meta))
         == Err(if row == metaId then Decode else IdMismatch(row, metaId))
    ensures OpenMeta(beside, row, inner, outer, SealPayload(id, inner, outer, n, payload))
         == Err(if beside == id then Decode else IdMismatch(beside, id))
  {
    WiresDiffer(meta, payload, row);
    hide MetaWire, PayloadWire, PayloadOfWire, MetaOfWire, SealBytes, OpenBytes;
    OpenSealed(metaId, inner, outer, n.n1, n.n2, ToCbor(MetaWire(meta)));
    OpenSealed(id, inner, outer, n.n1, n.n2, ToCbor(PayloadWire(payload)));
    if row != metaId {
      SealedHeader(metaId, inner, outer, n.n1, n.n2, ToCbor(MetaWire(meta)), row);
    }
    if beside != id {
      SealedHeader(id, inner, outer, n.n1, n.n2, ToCbor(PayloadWire(payload)), beside);
    }
  }

  /** Whatever bytes stand in a row: they open as its payload exactly when they are such a document sealed
      for the id of the row under both keys, and as its metadata exactly when they are such a document
      sealed for the id beside them. */
  lemma AnyBlobOpensExactly(row: Uuid, beside: Uuid, inner: Key, outer: Key, blob: Bytes, payload: SecretPayload, meta: SecretMeta)
    ensures OpenPayload(row, inner, outer, blob) == Ok(payload)
       <==> exists n1: Nonce, n2: Nonce, wire: Cbor ::
              blob == SealBytes(row, inner, outer, n1, n2, ToCbor(wire)) && PayloadOfWire(wire) == Some(payload)
    ensures OpenMeta(beside, row, inner, outer, blob) == Ok(meta)
       <==> exists n1: Nonce, n2: Nonce, wire: Cbor ::
              blob == SealBytes(beside, inner, outer, n1, n2, ToCbor(wire)) && MetaOfWire(row, wire) == Some(meta)
  {
    hide SealBytes, OpenBytes, PayloadOfWire, MetaOfWire;
    forall id: Uuid, wire: Cbor
      ensures OpenBytes(id, inner, outer, blob) == Ok(ToCbor(wire))
         <==> exists n1: Nonce, n2: Nonce :: blob == SealBytes(id, inner, outer, n1, n2, ToCbor(wire))
    {
      OpensOnlyWhatWasSealed(id, inner, outer, blob, ToCbor(wire));
    }
    SingleDoc(OpenBytes(row, inner, outer, blob));
    SingleDoc(OpenBytes(beside, inner, outer, blob));
  }

  lemma SingleDoc(r: Result<Bytes, EnvelopeError>)
    ensures r.Ok? && FromCbor(r.value).Some? ==> r == Ok(ToCbor(FromCbor(r.value).value))
  {
    if r.Ok? && FromCbor(r.value).Some? {
      assert r.value == [r.value[0]];
    }
  }

  // ---- The session over rows that were moved about ------------------------------------------------

  function WithRows(s: Sessions.State, rows: map<Bytes, Row>): Sessions.State {
    s.(tables := s.tables.(rows := rows))
  }

  lemma UnlockedKeys(s: Sessions.State, g: Ideal, now: int)
    requires Inv(s, g) && Observe(s, now).Unlocked?
    ensures s.inner == Some(g.roots.inner) && s.outer == g.roots.outer
    ensures forall rows :: Tick(WithRows(s, rows), now).0 == WithRows(s, rows)
  {
    hide MetaTableMatches, EnrollmentsStored, RowsMatch;
  }

  lemma StoredBlobs(s: Sessions.State, g: Ideal, id: Bytes) returns (forMeta: Nonces, forPayload: Nonces)
    requires Inv(s, g) && id in g.contents
    ensures id in s.tables.rows && |id| == 16 && |s.tables.rows[id].metaId| == 16 && g.contents[id].meta.id == id
    ensures var row := s.tables.rows[id];
            && row.metaBlob == SealMeta(row.metaId, g.roots.inner, g.roots.outer, forMeta, g.contents[id].meta)
            && row.payloadBlob == SealPayload(id, g.roots.inner, g.roots.outer, forPayload, g.contents[id].payload)
  {
    hide MetaTableMatches, EnrollmentsStored, SealMeta, SealPayload;
    assert id in s.tables.rows.Keys && Holds(s.tables.rows[id], id, g.contents[id], g.roots);
    var row := s.tables.rows[id];
    forMeta :| row.metaBlob == SealMeta(row.metaId, g.roots.inner, g.roots.outer, forMeta, g.contents[id].meta);
    forPayload :| row.payloadBlob == SealPayload(id, g.roots.inner, g.roots.outer, forPayload, g.contents[id].payload);
  }

  /** A row put together from parts of stored rows, under any id: its payload opens exactly when it is that
      id's own, its metadata exactly when it stands beside an id that it was sealed under. */
  lemma MovedPartsOpenExactly(s: Sessions.State, g: Ideal, rows: map<Bytes, Row>, id: Uuid, a: Bytes, b: Bytes, c: Bytes, clock: Clock)
    requires Inv(s, g) && Observe(s, clock.check).Unlocked?
    requires a in g.contents && b in g.contents && c in g.contents
    requires id in rows
    requires rows[id] == Row(s.tables.rows[a].metaId, s.tables.rows[b].metaBlob, s.tables.rows[c].payloadBlob)
    ensures var (beside, own) := (s.tables.rows[a].metaId, s.tables.rows[b].metaId);
            && |beside| == 16 && |own| == 16 && |c| == 16
            && MetaFor(WithRows(s, rows), id, clock.check).1
               == (if beside == own then Ok(g.contents[b].meta.(id := id)) else Err(EnvelopeErr(IdMismatch(beside, own))))
            && OpenSecret(WithRows(s, rows), id, clock).1
               == (if c == id then Ok(g.contents[c].payload) else Err(EnvelopeErr(IdMismatch(id, c))))
  {
    hide Inv, OpenMeta, OpenPayload, SealMeta, SealPayload, Observe;
    var _, _ := StoredBlobs(s, g, a);
    var n, _ := StoredBlobs(s, g, b);
    var _, n' := StoredBlobs(s, g, c);
    UnlockedKeys(s, g, clock.check);
    var beside, own := s.tables.rows[a].metaId, s.tables.rows[b].metaId;
    MetaOpensBesideItsId(own, g.roots.inner, g.roots.outer, n, g.contents[b].meta, beside, id);
    PayloadOpensInItsRowOnly(c, g.roots.inner, g.roots.outer, n', g.contents[c].payload, id);
  }

  /** Two rows whose metadata, with the ids beside it, changed places. */
  function Exchanged(rows: map<Bytes, Row>, a: Bytes, b: Bytes): map<Bytes, Row>
    requires a in rows && b in rows
  {
    rows[a := rows[a].(metaId := rows[b].metaId, metaBlob := rows[b].metaBlob)]
        [b := rows[b].(metaId := rows[a].metaId, metaBlob := rows[a].metaBlob)]
  }

  /** The input on which a blob does move between rows: each secret is then listed under the other's name,
      and opens as itself. */
  lemma ExchangedMetadataOpens(s: Sessions.State, g: Ideal, a: Uuid, b: Uuid, clock: Clock)
    requires Inv(s, g) && Observe(s, clock.check).Unlocked? && a in g.contents && b in g.contents && a != b
    ensures a in s.tables.rows && b in s.tables.rows
    ensures var s' := WithRows(s, Exchanged(s.tables.rows, a, b));
            && MetaFor(s', a, clock.check).1 == Ok(g.contents[b].meta.(id := a))
            && MetaFor(s', b, clock.check).1 == Ok(g.contents[a].meta.(id := b))
            && OpenSecret(s', a, clock).1 == Ok(g.contents[a].payload)
            && OpenSecret(s', b, clock).1 == Ok(g.contents[b].payload)
  {
    hide Inv, MetaFor, OpenSecret, Observe, SealMeta, SealPayload, WithRows;
    var _, _ := StoredBlobs(s, g, a);
    var _, _ := StoredBlobs(s, g, b);
    var rows := Exchanged(s.tables.rows, a, b);
    assert rows[a] == Row(s.tables.rows[b].metaId, s.tables.rows[b].metaBlob, s.tables.rows[a].payloadBlob);
    assert rows[b] == Row(s.tables.rows[a].metaId, s.tables.rows[a].metaBlob, s.tables.rows[b].payloadBlob);
    MovedPartsOpenExactly(s, g, rows, a, b, b, a, clock);
    MovedPartsOpenExactly(s, g, rows, b, a, a, b, clock);
  }
}
