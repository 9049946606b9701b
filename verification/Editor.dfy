/** The add and edit form (`ui/editor.rs`). */
module Editors {
  import opened Common
  import opened Symbolic
  import opened Model
  import opened Domain
  import opened Chars
  import Recovery

  datatype Field = NameField | ValueField | UsernameField | DomainField | ApplicationField | TagsField | NotesField

  const ORDER: seq<Field> :=
    [NameField, ValueField, UsernameField, DomainField, ApplicationField, TagsField, NotesField]

  /** What the user types into. */
  datatype Form = Form(
    name: string, secretType: SecretType, value: string, username: string, domain: string,
    application: string, tags: string, notes: string)

  datatype Editor = Editor(id: Option<Uuid>, createdAt: int, form: Form, focus: Field, error: Option<string>)

  function NewEditor(now: int): Editor {
    Editor(None, now, Form("", Password, "", "", "", "", "", ""), NameField, None)
  }

  /** The bytes of a text, in UTF-8. */
  function Encoded(s: string): Bytes {
    var bytes := Recovery.Utf8(s);
    seq(|bytes|, i requires 0 <= i < |bytes| => Plain(bytes[i]))
  }

  function TextOf(text: Bytes -> Option<string>, b: Bytes): string {
    match text(b) case Some(s) => s case None => ""
  }

  function JoinTags(tags: seq<string>): string {
    if tags == [] then "" else if |tags| == 1 then tags[0] else tags[0] + ", " + JoinTags(tags[1..])
  }

  /** Tags are listed in their order, with a comma and a space between them. */
  lemma {:induction false} TagsAreListed(tags: seq<string>, last: string)
    ensures JoinTags([last]) == last
    ensures tags != [] ==> JoinTags(tags + [last]) == JoinTags(tags) + ", " + last
    decreases |tags|
  {
    if |tags| == 1 {
      assert (tags + [last])[1..] == [last];
    } else if tags != [] {
      assert (tags + [last])[1..] == tags[1..] + [last];
      TagsAreListed(tags[1..], last);
    }
  }

  /** `text` reads a buffer as UTF-8 text, if it is that. */
  function FromExisting(text: Bytes -> Option<string>, meta: SecretMeta, payload: SecretPayload): Editor {
    Editor(Some(meta.id), meta.createdAt,
           Form(meta.name, meta.secretType, TextOf(text, payload.value), meta.username, meta.domain, meta.application,
                JoinTags(meta.tags), if payload.notes.Some? then TextOf(text, payload.notes.value) else ""),
           NameField, None)
  }

  function IndexOf(f: Field): (i: nat)
    ensures i < |ORDER| && ORDER[i] == f
  {
    match f
    case NameField => 0 case ValueField => 1 case UsernameField => 2 case DomainField => 3
    case ApplicationField => 4 case TagsField => 5 case NotesField => 6
  }

  function CycleFocus(e: Editor, backwards: bool): Editor {
    var current := IndexOf(e.focus);
    e.(focus := ORDER[if backwards then (current + |ORDER| - 1) % |ORDER| else (current + 1) % |ORDER|])
  }

  /** Shift+Tab undoes Tab and Tab undoes Shift+Tab. */
  lemma CyclingUndoes(e: Editor, backwards: bool)
    ensures CycleFocus(CycleFocus(e, backwards), !backwards) == e
  {
    var i := IndexOf(e.focus);
    var j := if backwards then (i + 6) % 7 else (i + 1) % 7;
    OrderIsDistinct(IndexOf(ORDER[j]), j);
    assert (if backwards then (j + 1) % 7 else (j + 6) % 7) == i;
  }

  /** Tab goes down the form and from its end to its start; Shift+Tab undoes it. */
  lemma TabOrder(e: Editor)
    ensures CycleFocus(e, false).focus ==
              match e.focus
              case NameField => ValueField
              case ValueField => UsernameField
              case UsernameField => DomainField
              case DomainField => ApplicationField
              case ApplicationField => TagsField
              case TagsField => NotesField
              case NotesField => NameField
    ensures CycleFocus(e, false) == e.(focus := CycleFocus(e, false).focus)
  {
  }

  lemma OrderIsDistinct(i: nat, j: nat)
    requires i < |ORDER| && j < |ORDER| && ORDER[i] == ORDER[j]
    ensures i == j
  {
  }

  function Pieces(s: string): (r: seq<string>)
    ensures r != []
    decreases |s|
  {
    var head := Before(s, ",");
    if |head| == |s| then [s] else [head] + Pieces(s[|head| + 1..])
  }

  function Tidy(pieces: seq<string>): seq<string> {
    if pieces == [] then []
    else (if Trim(pieces[0]) == "" then [] else [Trim(pieces[0])]) + Tidy(pieces[1..])
  }

  function SplitTags(tags: string): seq<string> {
    Tidy(Pieces(tags))
  }

  function HostOrEmpty(domain: string): string {
    match NormalizeHost(domain) case Some(h) => h case None => ""
  }

  /** `newId` and `now` are the random id and the clock. */
  function Build(e: Editor, newId: Uuid, now: int): Result<(SecretMeta, SecretPayload), string> {
    var f := e.form;
    if Trim(f.name) == "" then Err("A name is required.")
    else if f.value == "" then Err("The secret cannot be empty.")
    else
      Ok((SecretMeta(if e.id.Some? then e.id.value else newId, Trim(f.name), HostOrEmpty(f.domain), Trim(f.application),
                     f.secretType, Trim(f.username), SplitTags(f.tags), e.createdAt, now),
          SecretPayload(Encoded(f.value), if Trim(f.notes) == "" then None else Some(Encoded(f.notes)), [])))
  }

  // ---- Trimming ------------------------------------------------------------------------

  predicate Trimmed(s: string) {
    s != "" ==> !IsWhitespace(s[0]) && !IsWhitespace(s[|s| - 1])
  }

  lemma {:induction false} TrimStartStarts(s: string)
    ensures TrimStart(s) != "" ==> !IsWhitespace(TrimStart(s)[0])
    decreases |s|
  {
    if s != "" && IsWhitespace(s[0]) {
      TrimStartStarts(s[1..]);
    }
  }

  lemma {:induction false} TrimEndEnds(s: string)
    ensures TrimEnd(s) != "" ==> !IsWhitespace(TrimEnd(s)[|TrimEnd(s)| - 1])
    decreases |s|
  {
    if s != "" && IsWhitespace(s[|s| - 1]) {
      TrimEndEnds(s[..|s| - 1]);
    }
  }

  lemma TrimTrims(s: string)
    ensures Trimmed(Trim(s))
  {
    TrimStartStarts(s);
    TrimEndEnds(TrimStart(s));
    TrimEndIsPrefix(TrimStart(s));
  }

  lemma TrimmedStays(s: string)
    ensures Trim(s) == s <==> Trimmed(s)
  {
    TrimTrims(s);
  }

  // ---- Tags ------------------------------------------------------------------------------

  predicate TidyTag(t: string) {
    t != "" && Trimmed(t) && ',' !in t
  }

  predicate TidyTags(tags: seq<string>) {
    forall i | 0 <= i < |tags| :: TidyTag(tags[i])
  }

  lemma {:induction false} PiecesHaveNoComma(s: string)
    ensures forall i | 0 <= i < |Pieces(s)| :: ',' !in Pieces(s)[i]
    decreases |s|
  {
    hide Before;
    var head := Before(s, ",");
    BeforeStops(s, ",");
    if |head| == |s| {
      assert head == s;
    } else {
      PiecesHaveNoComma(s[|head| + 1..]);
    }
  }

  lemma {:induction false} TrimIsWithin(s: string, c: char)
    ensures c in Trim(s) ==> c in s
  {
    TrimStartIsSuffix(s);
    TrimEndIsPrefix(TrimStart(s));
  }

  lemma {:induction false} TrimStartIsSuffix(s: string)
    ensures |TrimStart(s)| <= |s| && TrimStart(s) == s[|s| - |TrimStart(s)|..]
    decreases |s|
  {
    if s != "" && IsWhitespace(s[0]) {
      TrimStartIsSuffix(s[1..]);
    }
  }

  lemma {:induction false} TidyIsTidy(pieces: seq<string>)
    requires forall i | 0 <= i < |pieces| :: ',' !in pieces[i]
    ensures TidyTags(Tidy(pieces))
    decreases |pieces|
  {
    hide Trim;
    if pieces != [] {
      TrimTrims(pieces[0]);
      TrimIsWithin(pieces[0], ',');
      TidyIsTidy(pieces[1..]);
    }
  }

  lemma PiecesConcat(a: string, b: string)
    requires Without(a, ",")
    ensures Pieces(a + "," + b) == [a] + Pieces(b)
    ensures Pieces(a) == [a]
  {
    hide Before;
    var all := a + "," + b;
    assert all == a + ("," + b);
    BeforeConcat(a, "," + b, ",");
    CommaFirst("," + b);
    assert Before(all, ",") == a + "" == a;
    assert all[|a| + 1..] == b;
    BeforeAll(a, ",");
  }

  lemma CommaFirst(s: string)
    requires s != "" && s[0] == ','
    ensures Before(s, ",") == ""
  {
  }

  lemma LeadingSpace(s: string)
    ensures Trim(" " + s) == Trim(s)
  {
    assert (" " + s)[1..] == s;
  }

  /** A space in front of the tags is not noticed. */
  lemma SpaceBeforeTags(s: string)
    ensures SplitTags(" " + s) == SplitTags(s)
  {
    hide Before, Trim;
    var head := Before(s, ",");
    BeforeStops(s, ",");
    BeforeConcat(" ", s, ",");
    LeadingSpace(head);
    assert Before(" " + s, ",") == " " + head;
    if |head| == |s| {
      assert head == s;
      assert Pieces(" " + s) == [" " + s] && Pieces(s) == [s];
      assert [" " + s][1..] == [] && [s][1..] == [];
    } else {
      assert (" " + s)[|head| + 2..] == s[|head| + 1..];
      assert Pieces(" " + s) == [" " + head] + Pieces(s[|head| + 1..]);
    }
  }

  lemma {:induction false} JoinedTagsSplit(tags: seq<string>)
    requires TidyTags(tags)
    ensures SplitTags(JoinTags(tags)) == tags
    decreases |tags|
  {
    hide Before, Trim;
    if tags == [] {
      PiecesConcat("", "");
      TrimmedStays("");
    } else {
      var t := tags[0];
      assert TidyTag(t) && Without(t, ",");
      TrimmedStays(t);
      assert tags == [t] + tags[1..];
      if |tags| == 1 {
        PiecesConcat(t, "");
        assert Tidy([t]) == [t] + Tidy([]);
      } else {
        var rest := JoinTags(tags[1..]);
        JoinedTagsSplit(tags[1..]);
        PiecesConcat(t, " " + rest);
        assert JoinTags(tags) == t + "," + (" " + rest);
        SpaceBeforeTags(rest);
        assert Tidy([t] + Pieces(" " + rest)) == [t] + Tidy(Pieces(" " + rest)) by {
          assert ([t] + Pieces(" " + rest))[1..] == Pieces(" " + rest);
        }
      }
    }
  }

  /** Tags survive being joined for the form and split again exactly when they are tidy: not blank,
      without spaces at their ends, without commas. */
  lemma TagsRoundTrip(tags: seq<string>)
    ensures SplitTags(JoinTags(tags)) == tags <==> TidyTags(tags)
  {
    if TidyTags(tags) {
      JoinedTagsSplit(tags);
    }
    PiecesHaveNoComma(JoinTags(tags));
    TidyIsTidy(Pieces(JoinTags(tags)));
  }

  // ---- Saving twice ------------------------------------------------------------------------

  ghost predicate ReadsUtf8(text: Bytes -> Option<string>) {
    forall s: string :: text(Encoded(s)) == Some(s)
  }

  lemma EncodedInjective(s: string, t: string)
    requires Encoded(s) == Encoded(t)
    ensures s == t
  {
    var a, b := Recovery.Utf8(s), Recovery.Utf8(t);
    assert |a| == |b|;
    forall i | 0 <= i < |a| ensures a[i] == b[i] {
      assert Encoded(s)[i] == Plain(a[i]) && Encoded(t)[i] == Plain(b[i]);
    }
    Recovery.Utf8Injective(s, t);
  }

  /** There is a reader of UTF-8: no two texts have the same bytes. */
  lemma ReaderExists() returns (text: Bytes -> Option<string>)
    ensures ReadsUtf8(text)
  {
    text := (b: Bytes) => if exists s: string :: Encoded(s) == b then Some(Decoded(b)) else None;
    forall s: string ensures text(Encoded(s)) == Some(s) {
      EncodedInjective(s, Decoded(Encoded(s)));
    }
  }

  ghost function Decoded(b: Bytes): (s: string)
    requires exists s: string :: Encoded(s) == b
    ensures Encoded(s) == b
  {
    var s: string :| Encoded(s) == b;
    s
  }

  /** A form with nothing to tidy up. */
  ghost predicate TidyForm(f: Form) {
    && f.name != "" && Trimmed(f.name) && f.value != "" && Trimmed(f.username) && Trimmed(f.application)
    && (f.domain == "" || NormalizeHost(f.domain) == Some(f.domain))
    && (exists tags :: TidyTags(tags) && f.tags == JoinTags(tags))
    && (Trim(f.notes) == "" ==> f.notes == "")
  }

  /** What is typed is what is stored: a tidy form is accepted, and what it saves opens as the same form,
      for the same secret. */
  lemma TypedIsStored(text: Bytes -> Option<string>, e: Editor, newId: Uuid, now: int)
    requires ReadsUtf8(text) && TidyForm(e.form)
    ensures Build(e, newId, now).Ok?
    ensures var (meta, payload) := Build(e, newId, now).value;
            var again := FromExisting(text, meta, payload);
            && again.form == e.form && again.createdAt == e.createdAt
            && again.id == Some(if e.id.Some? then e.id.value else newId) && meta.updatedAt == now
  {
    hide Trim, NormalizeHost, Encoded, SplitTags, JoinTags;
    var f := e.form;
    TrimmedStays(f.name);
    TrimmedStays(f.username);
    TrimmedStays(f.application);
    var tags :| TidyTags(tags) && f.tags == JoinTags(tags);
    JoinedTagsSplit(tags);
    EmptyHasNoHost();
    var payload := Build(e, newId, now).value.1;
    assert TextOf(text, payload.value) == f.value;
    assert payload.notes.Some? ==> TextOf(text, payload.notes.value) == f.notes;
  }

  ghost predicate Blank(s: string) {
    forall i | 0 <= i < |s| :: IsWhitespace(s[i])
  }

  lemma BlankTrims(s: string)
    ensures Trim(s) == "" <==> Blank(s)
  {
    var i, j := TrimCuts(s);
    if Trim(s) == "" {
      assert i == j;
    }
  }

  /** A form is refused exactly when its name is blank or its secret empty, and says which. */
  lemma RefusedExactly(e: Editor, newId: Uuid, now: int)
    ensures Build(e, newId, now) == Err("A name is required.") <==> Blank(e.form.name)
    ensures Build(e, newId, now) == Err("The secret cannot be empty.") <==> !Blank(e.form.name) && e.form.value == ""
    ensures Build(e, newId, now).Ok? <==> !Blank(e.form.name) && e.form.value != ""
  {
    BlankTrims(e.form.name);
    assert "A name is required."[0] != "The secret cannot be empty."[0];
  }

  /** Field by field, what a tidy form stores: what stands in the field of that name, under the id of the
      edited secret or a new one, with the time at which the form of a new secret was opened. */
  lemma StoredFieldByField(e: Editor, newId: Uuid, now: int)
    requires TidyForm(e.form)
    ensures Build(e, newId, now).Ok?
    ensures var ((meta, payload), f) := (Build(e, newId, now).value, e.form);
            && meta.name == f.name && meta.secretType == f.secretType && meta.username == f.username
            && meta.domain == f.domain && meta.application == f.application
            && f.tags == JoinTags(meta.tags) && TidyTags(meta.tags)
            && payload.value == Encoded(f.value) && payload.extra == []
            && payload.notes == (if f.notes == "" then None else Some(Encoded(f.notes)))
            && (e.id.None? ==> meta.id == newId) && (e.id.Some? ==> meta.id == e.id.value)
            && meta.createdAt == e.createdAt && meta.updatedAt == now
  {
    hide Trim, NormalizeHost, Encoded, SplitTags, JoinTags;
    TrimmedStays(e.form.name);
    TrimmedStays(e.form.username);
    TrimmedStays(e.form.application);
    TrimmedStays("");
    var tags :| TidyTags(tags) && e.form.tags == JoinTags(tags);
    JoinedTagsSplit(tags);
    EmptyHasNoHost();
  }

  /** Opening a secret that the form saved and saving it unchanged stores it unchanged, but for the time
      of the update, exactly when its domain is settled: the form normalises the domain again, and
      normalising is not idempotent. */
  lemma SavingAgain(text: Bytes -> Option<string>, e: Editor, newId: Uuid, now: int, newId': Uuid, now': int)
    requires ReadsUtf8(text)
    ensures Build(e, newId, now).Ok? ==>
              var (meta, payload) := Build(e, newId, now).value;
              Build(FromExisting(text, meta, payload), newId', now') == Ok((meta.(updatedAt := now'), payload))
              <==> meta.domain == "" || Settled(meta.domain)
  {
    if Build(e, newId, now).Ok? {
      SavedStays(text, e, newId, now, newId', now');
    }
  }

  lemma SavedStays(text: Bytes -> Option<string>, e: Editor, newId: Uuid, now: int, newId': Uuid, now': int)
    requires ReadsUtf8(text) && Build(e, newId, now).Ok?
    ensures var (meta, payload) := Build(e, newId, now).value;
            Build(FromExisting(text, meta, payload), newId', now') == Ok((meta.(updatedAt := now'), payload))
            <==> meta.domain == "" || Settled(meta.domain)
  {
    hide Trim, NormalizeHost, Settled, Encoded, SplitTags, JoinTags;
    var (meta, payload) := Build(e, newId, now).value;
    TrimTwice(e.form.name);
    TrimTwice(e.form.application);
    TrimTwice(e.form.username);
    SavedTagsStay(e.form.tags);
    assert TextOf(text, payload.value) == e.form.value;
    assert payload.notes.Some? ==> TextOf(text, payload.notes.value) == e.form.notes;
    TrimmedStays("");
    SavedDomain(e.form.domain);
  }

  /** `b` is the text that it reads as. */
  predicate Reads(text: Bytes -> Option<string>, b: Bytes) {
    Encoded(TextOf(text, b)) == b
  }

  /** What the form can hold without changing it. */
  ghost predicate Keepable(text: Bytes -> Option<string>, meta: SecretMeta, payload: SecretPayload) {
    && meta.name != "" && Trimmed(meta.name) && Trimmed(meta.application) && Trimmed(meta.username)
    && (meta.domain == "" || (CleanDomain(meta.domain) && Settled(meta.domain)))
    && TidyTags(meta.tags)
    && TextOf(text, payload.value) != "" && Reads(text, payload.value)
    && (payload.notes.Some? ==> Trim(TextOf(text, payload.notes.value)) != "" && Reads(text, payload.notes.value))
    && payload.extra == []
  }

  ghost predicate CleanDomain(domain: string) {
    HostShaped(domain) && (domain[0] == '[' || Without(domain, ":"))
  }

  /** Opening any stored secret, whoever stored it, and saving it unchanged keeps it, but for the time of the
      update, exactly when its texts are tidy, its bytes are UTF-8, its domain is a settled host and it has
      no extra fields: the form has no place for them. */
  lemma EditKeepsExactly(text: Bytes -> Option<string>, meta: SecretMeta, payload: SecretPayload, newId: Uuid, now: int)
    ensures Build(FromExisting(text, meta, payload), newId, now) == Ok((meta.(updatedAt := now), payload))
       <==> Keepable(text, meta, payload)
  {
    hide Trim, NormalizeHost, Settled, Encoded, SplitTags, JoinTags, CleanDomain;
    TrimmedStays(meta.name);
    TrimmedStays(meta.application);
    TrimmedStays(meta.username);
    TrimmedStays("");
    TagsRoundTrip(meta.tags);
    DomainKept(meta.domain);
  }

  lemma DomainKept(domain: string)
    ensures HostOrEmpty(domain) == domain <==> domain == "" || (CleanDomain(domain) && Settled(domain))
  {
    hide Trim, HostOf, Settled, HostShaped;
    EmptyHasNoHost();
    ResultsAreHosts(domain);
    NormalisingTwice(domain);
    if domain != "" && CleanDomain(domain) && Settled(domain) {
      ShapedIsSomething(domain);
      SettledHostStays(domain);
    }
  }

  lemma ShapedIsSomething(h: string)
    requires HostShaped(h)
    ensures h != ""
  {
  }

  lemma TrimTwice(s: string)
    ensures Trim(Trim(s)) == Trim(s)
  {
    TrimTrims(s);
    TrimmedStays(Trim(s));
  }

  lemma SavedTagsStay(tags: string)
    ensures SplitTags(JoinTags(SplitTags(tags))) == SplitTags(tags)
  {
    PiecesHaveNoComma(tags);
    TidyIsTidy(Pieces(tags));
    JoinedTagsSplit(SplitTags(tags));
  }

  lemma SavedDomain(domain: string)
    ensures var d := HostOrEmpty(domain); HostOrEmpty(d) == d <==> d == "" || Settled(d)
  {
    hide Trim, HostOf, Settled;
    NormalisingTwice(domain);
    ResultsAreHosts(domain);
    EmptyHasNoHost();
    var d := HostOrEmpty(domain);
    if d != "" && NormalizeHost(d).None? {
      assert HostOrEmpty(d) == "";
    }
  }

  lemma EmptyHasNoHost()
    ensures NormalizeHost("") == None
  {
  }
}
