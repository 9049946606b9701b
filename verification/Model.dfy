/** Secrets and their wire forms (`model.rs`). */
module Model {
  import opened Common
  import opened Symbolic

  datatype SecretType =
    | Password | ApiKey | SshKey | GpgKey | Certificate | Token | RecoveryCodes
    | CreditCard | SecureNote | Database | WifiPassword | LicenseKey | Other

  const ALL: seq<SecretType> := [Password, ApiKey, SshKey, GpgKey, Certificate, Token, RecoveryCodes,
                                 CreditCard, SecureNote, Database, WifiPassword, LicenseKey, Other]

  function AsStr(t: SecretType): string {
    match t
    case Password => "password"
    case ApiKey => "api_key"
    case SshKey => "ssh_key"
    case GpgKey => "gpg_key"
    case Certificate => "certificate"
    case Token => "token"
    case RecoveryCodes => "recovery_codes"
    case CreditCard => "credit_card"
    case SecureNote => "secure_note"
    case Database => "database"
    case WifiPassword => "wifi_password"
    case LicenseKey => "license_key"
    case Other => "other"
  }

  function FindType(s: string, types: seq<SecretType>): SecretType {
    if types == [] then Other
    else if AsStr(types[0]) == s then types[0]
    else FindType(s, types[1..])
  }

  function FromStrLenient(s: string): SecretType {
    FindType(s, ALL)
  }

  lemma FindTypeFirst(s: string, types: seq<SecretType>, k: nat)
    requires k < |types| && AsStr(types[k]) == s
    requires forall j | 0 <= j < k :: AsStr(types[j]) != s
    ensures FindType(s, types) == types[k]
  {
    if k > 0 {
      FindTypeFirst(s, types[1..], k - 1);
    }
  }

  lemma StrInjective(a: SecretType, b: SecretType)
    requires AsStr(a) == AsStr(b)
    ensures a == b
  {
    var x, y := AsStr(a), AsStr(b);
    assert |x| == |y|;
    assert x[0] == y[0] && x[|x| - 1] == y[|y| - 1];
  }

  /** The stable identifiers come back as the variant they name. */
  lemma TypeRoundTrip(t: SecretType)
    ensures FromStrLenient(AsStr(t)) == t
  {
    var k := match t
      case Password => 0 case ApiKey => 1 case SshKey => 2 case GpgKey => 3 case Certificate => 4
      case Token => 5 case RecoveryCodes => 6 case CreditCard => 7 case SecureNote => 8 case Database => 9
      case WifiPassword => 10 case LicenseKey => 11 case Other => 12;
    assert ALL[k] == t;
    forall j | 0 <= j < k ensures AsStr(ALL[j]) != AsStr(t) {
      if AsStr(ALL[j]) == AsStr(t) {
        StrInjective(ALL[j], t);
      }
    }
    FindTypeFirst(AsStr(t), ALL, k);
  }

  /** Any other name is that of a secret of no particular type. */
  lemma UnknownTypeIsOther(s: string)
    ensures FromStrLenient(s) != Other ==> AsStr(FromStrLenient(s)) == s
  {
    FindTypeNames(s, ALL);
  }

  lemma {:induction false} FindTypeNames(s: string, types: seq<SecretType>)
    ensures FindType(s, types) != Other ==> AsStr(FindType(s, types)) == s
    decreases |types|
  {
    if types != [] && AsStr(types[0]) != s {
      FindTypeNames(s, types[1..]);
    }
  }

  datatype SecretMeta = SecretMeta(
    id: Uuid, name: string, domain: string, application: string, secretType: SecretType,
    username: string, tags: seq<string>, createdAt: int, updatedAt: int)

  datatype SecretPayload = SecretPayload(value: Bytes, notes: Option<Bytes>, extra: seq<(string, Bytes)>)

  // ---- The metadata document --------------------------------------------------

  function TextList(s: seq<string>): seq<Cbor> {
    seq(|s|, i requires 0 <= i < |s| => Text(s[i]))
  }

  /** The field map: optional fields are omitted when empty, and the row id is not in it. */
  function MetaWire(m: SecretMeta): Cbor {
    Fields(
      map["n" := Text(m.name), "t" := Text(AsStr(m.secretType)), "c" := Int(m.createdAt), "m" := Int(m.updatedAt)]
      + (if m.domain == "" then map[] else map["d" := Text(m.domain)])
      + (if m.application == "" then map[] else map["a" := Text(m.application)])
      + (if m.username == "" then map[] else map["u" := Text(m.username)])
      + (if m.tags == [] then map[] else map["g" := List(TextList(m.tags))]))
  }

  function TextField(f: map<string, Cbor>, key: string): Option<string> {
    if key !in f then Some("") else if f[key].Text? then Some(f[key].text) else None
  }

  function Texts(items: seq<Cbor>): Option<seq<string>> {
    if forall i | 0 <= i < |items| :: items[i].Text?
    then Some(seq(|items|, i requires 0 <= i < |items| => if items[i].Text? then items[i].text else ""))
    else None
  }

  function MetaOfWire(id: Uuid, wire: Cbor): Option<SecretMeta> {
    if !wire.Fields? then None
    else
      var f := wire.fields;
      if !("n" in f && f["n"].Text? && "t" in f && f["t"].Text? && "c" in f && f["c"].Int? && "m" in f && f["m"].Int?)
      then None
      else
        var tags := if "g" !in f then Some([]) else if f["g"].List? then Texts(f["g"].items) else None;
        var domain, app, user := TextField(f, "d"), TextField(f, "a"), TextField(f, "u");
        if tags.None? || domain.None? || app.None? || user.None? then None
        else Some(SecretMeta(id, f["n"].text, domain.value, app.value, FromStrLenient(f["t"].text),
                             user.value, tags.value, f["c"].n, f["m"].n))
  }

  lemma WireFields(m: SecretMeta)
    ensures MetaWire(m).Fields?
    ensures var f := MetaWire(m).fields;
            && "n" in f && f["n"] == Text(m.name) && "t" in f && f["t"] == Text(AsStr(m.secretType))
            && "c" in f && f["c"] == Int(m.createdAt) && "m" in f && f["m"] == Int(m.updatedAt)
            && TextField(f, "d") == Some(m.domain) && TextField(f, "a") == Some(m.application)
            && TextField(f, "u") == Some(m.username)
            && (if m.tags == [] then "g" !in f else "g" in f && f["g"].List? && Texts(f["g"].items) == Some(m.tags))
  {
    hide AsStr;
    var f := MetaWire(m).fields;
    if m.tags != [] {
      assert f["g"] == List(TextList(m.tags));
      assert Texts(TextList(m.tags)).value == m.tags;
    }
  }

  /** The sealed document and the row id together give back the whole record. */
  lemma MetaRoundTrip(m: SecretMeta)
    ensures MetaOfWire(m.id, MetaWire(m)) == Some(m)
  {
    var f := MetaWire(m).fields;
    TypeRoundTrip(m.secretType);
    WireFields(m);
    hide MetaWire, AsStr, FromStrLenient, TextField, Texts;
    assert MetaWire(m).Fields?;
  }

  /** A document with the fields that metadata must have, and those that it may have, each of its kind.
      Other fields, of a newer schema, may stand beside them. */
  predicate MetaDocument(wire: Cbor) {
    && wire.Fields?
    && (forall k | k in ["n", "t"] :: k in wire.fields && wire.fields[k].Text?)
    && (forall k | k in ["c", "m"] :: k in wire.fields && wire.fields[k].Int?)
    && (forall k | k in ["d", "a", "u"] && k in wire.fields :: wire.fields[k].Text?)
    && ("g" in wire.fields ==> wire.fields["g"].List? && forall c | c in wire.fields["g"].items :: c.Text?)
  }

  /** Exactly such documents are read, as the metadata whose own document has the same fields, but for the
      name of a type that is not known. */
  lemma MetaReadsExactly(id: Uuid, wire: Cbor)
    ensures MetaOfWire(id, wire).Some? <==> MetaDocument(wire)
    ensures MetaOfWire(id, wire).Some? ==>
              var m := MetaOfWire(id, wire).value;
              && m.id == id && m.secretType == FromStrLenient(wire.fields["t"].text)
              && forall k | k in MetaWire(m).fields && k != "t" :: k in wire.fields && wire.fields[k] == MetaWire(m).fields[k]
  {
    MetaAccepted(id, wire);
    hide MetaDocument, FromStrLenient;
    if MetaOfWire(id, wire).Some? {
      MetaFieldsAre(id, wire);
    }
  }

  lemma MetaAccepted(id: Uuid, wire: Cbor)
    ensures MetaOfWire(id, wire).Some? <==> MetaDocument(wire)
  {
    hide FromStrLenient, Texts;
    if wire.Fields? {
      assert "n" in ["n", "t"] && "t" in ["n", "t"] && "c" in ["c", "m"] && "m" in ["c", "m"];
      assert "d" in ["d", "a", "u"] && "a" in ["d", "a", "u"] && "u" in ["d", "a", "u"];
      if "g" in wire.fields && wire.fields["g"].List? {
        TextsRead(wire.fields["g"].items);
      }
    }
  }

  lemma MetaFieldsAre(id: Uuid, wire: Cbor)
    requires MetaOfWire(id, wire).Some?
    ensures var m := MetaOfWire(id, wire).value;
            && m.id == id && "t" in wire.fields && wire.fields["t"].Text? && m.secretType == FromStrLenient(wire.fields["t"].text)
            && forall k | k in MetaWire(m).fields && k != "t" :: k in wire.fields && wire.fields[k] == MetaWire(m).fields[k]
  {
    var f, m := wire.fields, MetaOfWire(id, wire).value;
    hide AsStr, FromStrLenient;
    if "g" in f {
      TextsRead(f["g"].items);
    }
    hide Texts, TextList;
    OnlyTheseFields(m);
    WireFields(m);
  }

  lemma OnlyTheseFields(m: SecretMeta)
    ensures forall k | k in MetaWire(m).fields ::
              || k in ["n", "t", "c", "m"] || (k == "d" && m.domain != "") || (k == "a" && m.application != "")
              || (k == "u" && m.username != "") || (k == "g" && m.tags != [])
  {
    hide AsStr, TextList;
  }

  lemma TextsRead(items: seq<Cbor>)
    ensures Texts(items).Some? <==> forall c | c in items :: c.Text?
    ensures Texts(items).Some? ==> TextList(Texts(items).value) == items
  {
    if forall c | c in items :: c.Text? {
      assert forall i | 0 <= i < |items| :: items[i] in items;
    }
  }

  // ---- The payload document ---------------------------------------------------

  function ExtraWire(extra: seq<(string, Bytes)>): seq<Cbor> {
    seq(|extra|, i requires 0 <= i < |extra| => List([Text(extra[i].0), Blob(extra[i].1)]))
  }

  function PayloadWire(p: SecretPayload): Cbor {
    Fields(
      map["v" := Blob(p.value)]
      + (if p.notes.None? then map[] else map["n" := Blob(p.notes.value)])
      + (if p.extra == [] then map[] else map["x" := List(ExtraWire(p.extra))]))
  }

  predicate IsPair(c: Cbor) {
    c.List? && |c.items| == 2 && c.items[0].Text? && c.items[1].Blob?
  }

  function Pairs(items: seq<Cbor>): Option<seq<(string, Bytes)>> {
    if forall i | 0 <= i < |items| :: IsPair(items[i])
    then Some(seq(|items|, i requires 0 <= i < |items| =>
                    if IsPair(items[i]) then (items[i].items[0].text, items[i].items[1].bytes) else ("", [])))
    else None
  }

  function PayloadOfWire(wire: Cbor): Option<SecretPayload> {
    if !wire.Fields? then None
    else
      var f := wire.fields;
      if !("v" in f && f["v"].Blob?) || ("n" in f && !f["n"].Blob?) then None
      else
        var extra := if "x" !in f then Some([]) else if f["x"].List? then Pairs(f["x"].items) else None;
        if extra.None? then None
        else Some(SecretPayload(f["v"].bytes, if "n" in f then Some(f["n"].bytes) else None, extra.value))
  }

  lemma PayloadFields(p: SecretPayload)
    ensures PayloadWire(p).Fields?
    ensures var f := PayloadWire(p).fields;
            && "v" in f && f["v"] == Blob(p.value)
            && (if p.notes.None? then "n" !in f else "n" in f && f["n"] == Blob(p.notes.value))
            && (if p.extra == [] then "x" !in f else "x" in f && f["x"].List? && Pairs(f["x"].items) == Some(p.extra))
  {
    var f := PayloadWire(p).fields;
    if p.extra != [] {
      assert f["x"] == List(ExtraWire(p.extra));
      assert Pairs(ExtraWire(p.extra)).value == p.extra;
    }
  }

  lemma PayloadRoundTrip(p: SecretPayload)
    ensures PayloadOfWire(PayloadWire(p)) == Some(p)
  {
    var f := PayloadWire(p).fields;
    assert f["v"] == Blob(p.value);
    if p.notes.Some? {
      assert f["n"] == Blob(p.notes.value);
    } else {
      assert "n" !in f;
    }
    if p.extra != [] {
      assert f["x"] == List(ExtraWire(p.extra));
      assert Pairs(ExtraWire(p.extra)).value == p.extra;
    }
  }

  predicate PayloadDocument(wire: Cbor) {
    && wire.Fields? && "v" in wire.fields && wire.fields["v"].Blob?
    && ("n" in wire.fields ==> wire.fields["n"].Blob?)
    && ("x" in wire.fields ==> wire.fields["x"].List? && forall c | c in wire.fields["x"].items :: IsPair(c))
  }

  /** Exactly such documents are read, as the payload whose own document has the same fields. */
  lemma PayloadReadsExactly(wire: Cbor)
    ensures PayloadOfWire(wire).Some? <==> PayloadDocument(wire)
    ensures PayloadOfWire(wire).Some? ==>
              var again := PayloadWire(PayloadOfWire(wire).value).fields;
              forall k | k in again :: k in wire.fields && wire.fields[k] == again[k]
  {
    if wire.Fields? && "x" in wire.fields && wire.fields["x"].List? {
      PairsRead(wire.fields["x"].items);
    }
  }

  lemma PairsRead(items: seq<Cbor>)
    ensures Pairs(items).Some? <==> forall c | c in items :: IsPair(c)
    ensures Pairs(items).Some? ==> ExtraWire(Pairs(items).value) == items
  {
    if forall c | c in items :: IsPair(c) {
      assert forall i | 0 <= i < |items| :: items[i] in items;
      forall i | 0 <= i < |items| ensures ExtraWire(Pairs(items).value)[i] == items[i] {
        assert items[i].items == [items[i].items[0], items[i].items[1]];
      }
    }
  }
}
