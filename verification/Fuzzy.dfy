/** Ranking secrets for the popup (`search/fuzzy.rs`). */
module Fuzzy {
  import opened Common
  import opened Model
  import opened Domain
  import Chars
  import Lex
  import StableSort

  datatype Score = Score(domain: DomainMatch, fuzzy: nat, recency: int)

  datatype Ranked = Ranked(meta: SecretMeta, score: Score)

  datatype SearchContext = SearchContext(host: Option<string>, application: Option<string>)

  /** The parts that are not modelled: the fuzzy matcher's score of a field for a query, Unicode
      lowercasing, and the public suffix list. */
  datatype Searcher = Searcher(
    score: (string, string) -> Option<nat>,
    lower: string -> string,
    registrable: string -> Option<string>)

  // ---- One entry ------------------------------------------------------------------------

  function Haystacks(meta: SecretMeta): seq<string> {
    [meta.name]
    + (if meta.domain != "" then [meta.domain] else [])
    + (if meta.application != "" then [meta.application] else [])
    + (if meta.username != "" then [meta.username] else [])
    + meta.tags
  }

  method CollectHaystacks(meta: SecretMeta) returns (fields: seq<string>)
    ensures fields == Haystacks(meta)
  {
    fields := [meta.name];
    if meta.domain != "" {
      fields := fields + [meta.domain];
    }
    if meta.application != "" {
      fields := fields + [meta.application];
    }
    if meta.username != "" {
      fields := fields + [meta.username];
    }
    fields := fields + meta.tags;
  }

  function DomainScore(se: Searcher, meta: SecretMeta, ctx: SearchContext): DomainMatch {
    if ctx.host.Some? && MatchDomain(se.registrable, meta.domain, ctx.host.value) != NoMatch
    then MatchDomain(se.registrable, meta.domain, ctx.host.value)
    else if ctx.application.Some? && meta.application != ""
            && Chars.EqIgnoreAsciiCase(meta.application, Chars.Trim(ctx.application.value))
    then RegistrableDomain
    else NoMatch
  }

  function Max(a: Option<nat>, b: Option<nat>): Option<nat> {
    if a.None? then b else if b.None? then a else if a.value < b.value then b else a
  }

  /** The best score of any field, when any field matches. */
  function Best(se: Searcher, query: string, fields: seq<string>): Option<nat> {
    if fields == [] then None
    else Max(Best(se, query, fields[..|fields| - 1]), se.score(query, fields[|fields| - 1]))
  }

  lemma {:induction false} BestIsTheMaximum(se: Searcher, query: string, fields: seq<string>)
    ensures Best(se, query, fields).Some? <==> exists f | f in fields :: se.score(query, f).Some?
    ensures Best(se, query, fields).Some? ==>
              && (exists f | f in fields :: se.score(query, f) == Best(se, query, fields))
              && (forall f | f in fields && se.score(query, f).Some? :: se.score(query, f).value <= Best(se, query, fields).value)
    decreases |fields|
  {
    if fields != [] {
      var n := |fields| - 1;
      BestIsTheMaximum(se, query, fields[..n]);
      assert fields == fields[..n] + [fields[n]];
      assert fields[n] in fields;
      assert forall f :: f in fields[..n] ==> f in fields;
    }
  }

  function Entry(se: Searcher, query: string, ctx: SearchContext, meta: SecretMeta): Option<Ranked> {
    var fuzzy := if query == "" then Some(0) else Best(se, query, Haystacks(meta));
    match fuzzy
    case None => None
    case Some(f) => Some(Ranked(meta, Score(DomainScore(se, meta, ctx), f, meta.updatedAt)))
  }

  /** An entry is kept exactly when the query is blank or matches some field of the metadata. */
  lemma KeptExactly(se: Searcher, query: string, ctx: SearchContext, meta: SecretMeta)
    ensures Entry(se, query, ctx, meta).Some? <==> query == "" || exists f | f in Haystacks(meta) :: se.score(query, f).Some?
  {
    BestIsTheMaximum(se, query, Haystacks(meta));
  }

  // ---- Filtering ----------------------------------------------------------------------------

  function Entries(se: Searcher, query: string, ctx: SearchContext, secrets: seq<SecretMeta>): seq<Ranked> {
    if secrets == [] then []
    else
      var n := |secrets| - 1;
      var entry := Entry(se, query, ctx, secrets[n]);
      Entries(se, query, ctx, secrets[..n]) + if entry.Some? then [entry.value] else []
  }

  /** The entries whose domain matches the host of the context, or whose application is the focused one. */
  function InContext(entries: seq<Ranked>): seq<Ranked> {
    if entries == [] then []
    else (if entries[0].score.domain != NoMatch then [entries[0]] else []) + InContext(entries[1..])
  }

  predicate AnyInContext(entries: seq<Ranked>) {
    exists i | 0 <= i < |entries| :: entries[i].score.domain != NoMatch
  }

  /** What is shown, in input order. */
  function Shown(se: Searcher, query: string, ctx: SearchContext, secrets: seq<SecretMeta>): seq<Ranked> {
    var entries := Entries(se, query, ctx, secrets);
    if ctx.host.Some? && AnyInContext(entries) then InContext(entries) else entries
  }

  // ---- Ordering -------------------------------------------------------------------------------

  function Strength(m: DomainMatch): nat {
    match m case NoMatch => 0 case RegistrableDomain => 1 case ParentDomain => 2 case Exact => 3
  }

  /** Domain descending, score descending, lowercased name ascending, recency descending. */
  predicate InOrder(lower: string -> string, a: Ranked, b: Ranked) {
    if a.score.domain != b.score.domain then Strength(a.score.domain) > Strength(b.score.domain)
    else if a.score.fuzzy != b.score.fuzzy then a.score.fuzzy > b.score.fuzzy
    else if lower(a.meta.name) != lower(b.meta.name) then Lex.Less(lower(a.meta.name), lower(b.meta.name))
    else a.score.recency >= b.score.recency
  }

  function RankOrder(lower: string -> string): (Ranked, Ranked) -> bool {
    (a: Ranked, b: Ranked) => InOrder(lower, a, b)
  }

  function Rank(se: Searcher, secrets: seq<SecretMeta>, query: string, ctx: SearchContext): seq<Ranked> {
    StableSort.Sort(Shown(se, Chars.Trim(query), ctx, secrets), RankOrder(se.lower))
  }

  method RankSecrets(se: Searcher, secrets: seq<SecretMeta>, query: string, ctx: SearchContext) returns (out: seq<Ranked>)
    ensures out == Rank(se, secrets, query, ctx)
  {
    hide DomainScore, Haystacks, Chars.Trim, AnyInContext, InContext, StableSort.Sort;
    var pattern := Chars.Trim(query);
    out := [];
    var i := 0;
    while i < |secrets|
      invariant 0 <= i <= |secrets|
      invariant out == Entries(se, pattern, ctx, secrets[..i])
    {
      var meta := secrets[i];
      assert secrets[..i + 1][..i] == secrets[..i];
      var domain := DomainScore(se, meta, ctx);
      var best: Option<nat> := Some(0);
      if pattern != "" {
        best := None;
        var fields := CollectHaystacks(meta);
        var j := 0;
        while j < |fields|
          invariant 0 <= j <= |fields|
          invariant best == Best(se, pattern, fields[..j])
        {
          assert fields[..j + 1][..j] == fields[..j];
          var s := se.score(pattern, fields[j]);
          if s.Some? {
            best := if best.None? then s else Some(if best.value < s.value then s.value else best.value);
          }
          j := j + 1;
        }
        assert fields[..j] == fields;
      }
      if best.Some? {
        out := out + [Ranked(meta, Score(domain, best.value, meta.updatedAt))];
      }
      i := i + 1;
    }
    assert secrets[..i] == secrets;
    if ctx.host.Some? && AnyInContext(out) {
      out := InContext(out);
    }
    out := StableSort.Sort(out, RankOrder(se.lower));
  }

  // ---- What a ranking is --------------------------------------------------------------------------

  lemma {:induction false} EntriesMembers(se: Searcher, query: string, ctx: SearchContext, secrets: seq<SecretMeta>, e: Ranked)
    ensures e in Entries(se, query, ctx, secrets) <==> e.meta in secrets && Entry(se, query, ctx, e.meta) == Some(e)
    decreases |secrets|
  {
    hide Haystacks, Best, DomainScore;
    if secrets != [] {
      var n := |secrets| - 1;
      EntriesMembers(se, query, ctx, secrets[..n], e);
      assert secrets == secrets[..n] + [secrets[n]];
      assert e.meta in secrets <==> e.meta in secrets[..n] || e.meta == secrets[n];
    }
  }

  lemma {:induction false} InContextMembers(entries: seq<Ranked>, e: Ranked)
    ensures e in InContext(entries) <==> e in entries && e.score.domain != NoMatch
    decreases |entries|
  {
    if entries != [] {
      InContextMembers(entries[1..], e);
      assert entries == [entries[0]] + entries[1..];
    }
  }

  /** The secret's domain matches the host of the context. */
  predicate OnSite(se: Searcher, meta: SecretMeta, ctx: SearchContext) {
    ctx.host.Some? && MatchDomain(se.registrable, meta.domain, ctx.host.value) != NoMatch
  }

  /** The secret is bound to the focused application. */
  predicate BoundToApplication(meta: SecretMeta, ctx: SearchContext) {
    && ctx.application.Some? && meta.application != ""
    && Chars.EqIgnoreAsciiCase(meta.application, Chars.Trim(ctx.application.value))
  }

  lemma ScoredExactly(se: Searcher, meta: SecretMeta, ctx: SearchContext)
    ensures DomainScore(se, meta, ctx) != NoMatch <==> OnSite(se, meta, ctx) || BoundToApplication(meta, ctx)
  {
  }

  predicate Kept(se: Searcher, query: string, ctx: SearchContext, meta: SecretMeta) {
    Entry(se, Chars.Trim(query), ctx, meta).Some?
  }

  /** The context names a host, and some secret that the query keeps is on that site or bound to the focused
      application. */
  ghost predicate Narrows(se: Searcher, secrets: seq<SecretMeta>, query: string, ctx: SearchContext) {
    ctx.host.Some? && exists meta | meta in secrets ::
      Entry(se, Chars.Trim(query), ctx, meta).Some? && DomainScore(se, meta, ctx) != NoMatch
  }

  lemma AnyInContextMeans(se: Searcher, query: string, ctx: SearchContext, secrets: seq<SecretMeta>)
    ensures AnyInContext(Entries(se, query, ctx, secrets))
       <==> exists meta | meta in secrets :: Entry(se, query, ctx, meta).Some? && DomainScore(se, meta, ctx) != NoMatch
  {
    hide Haystacks, Best, DomainScore;
    var entries := Entries(se, query, ctx, secrets);
    if AnyInContext(entries) {
      var i :| 0 <= i < |entries| && entries[i].score.domain != NoMatch;
      EntriesMembers(se, query, ctx, secrets, entries[i]);
    }
    if meta :| meta in secrets && Entry(se, query, ctx, meta).Some? && DomainScore(se, meta, ctx) != NoMatch {
      EntriesMembers(se, query, ctx, secrets, Entry(se, query, ctx, meta).value);
    }
  }

  /** The ranking holds exactly the right entries: those that the query keeps, narrowed to those that
      are on the site or bound to the focused application when there is a host and any of them is. */
  lemma RankMembers(se: Searcher, secrets: seq<SecretMeta>, query: string, ctx: SearchContext, e: Ranked)
    ensures e in Rank(se, secrets, query, ctx)
       <==> && e.meta in secrets && Entry(se, Chars.Trim(query), ctx, e.meta) == Some(e)
            && (Narrows(se, secrets, query, ctx) ==> e.score.domain != NoMatch)
  {
    hide Haystacks, Best, DomainScore, Chars.Trim, StableSort.Sort, AnyInContext;
    var q := Chars.Trim(query);
    var shown := Shown(se, q, ctx, secrets);
    StableSort.SortKeeps(shown, RankOrder(se.lower));
    assert e in Rank(se, secrets, query, ctx) <==> e in shown by {
      assert e in multiset(Rank(se, secrets, query, ctx)) <==> e in multiset(shown);
    }
    EntriesMembers(se, q, ctx, secrets, e);
    InContextMembers(Entries(se, q, ctx, secrets), e);
    AnyInContextMeans(se, q, ctx, secrets);
  }

  lemma OrderIsPreorder(lower: string -> string)
    ensures StableSort.TotalPreorder(RankOrder(lower))
  {
    var le := RankOrder(lower);
    forall a: Ranked, b: Ranked ensures le(a, b) || le(b, a) {
      Lex.Trichotomy(lower(a.meta.name), lower(b.meta.name));
    }
    forall a: Ranked, b: Ranked, c: Ranked | le(a, b) && le(b, c) ensures le(a, c) {
      OrderIsTransitive(lower, a, b, c);
    }
  }

  lemma OrderIsTransitive(lower: string -> string, a: Ranked, b: Ranked, c: Ranked)
    requires InOrder(lower, a, b) && InOrder(lower, b, c)
    ensures InOrder(lower, a, c)
  {
    hide Lex.Less;
    var x, y, z := lower(a.meta.name), lower(b.meta.name), lower(c.meta.name);
    if Lex.Less(x, y) && Lex.Less(y, z) {
      Lex.Transitive(x, y, z);
      Lex.Asymmetric(x, z);
    }
    if Lex.Less(x, y) {
      Lex.Asymmetric(x, y);
    }
  }

  /** The ranking is the one arrangement of the shown entries that is in order and keeps the input
      order among entries that tie in everything. */
  lemma RankIsTheStableOrder(se: Searcher, secrets: seq<SecretMeta>, query: string, ctx: SearchContext, r: seq<Ranked>)
    ensures r == Rank(se, secrets, query, ctx)
       <==> && StableSort.Ordered(r, RankOrder(se.lower))
            && StableSort.SameClasses(r, Shown(se, Chars.Trim(query), ctx, secrets), RankOrder(se.lower))
  {
    OrderIsPreorder(se.lower);
    StableSort.SortIsTheStableOrder(Shown(se, Chars.Trim(query), ctx, secrets), r, RankOrder(se.lower));
  }

  predicate Precedes(lower: string -> string, a: Ranked, b: Ranked) {
    && Strength(a.score.domain) >= Strength(b.score.domain)
    && (a.score.domain == b.score.domain ==> a.score.fuzzy >= b.score.fuzzy)
    && (a.score.domain == b.score.domain && a.score.fuzzy == b.score.fuzzy ==>
          Lex.AtMost(lower(a.meta.name), lower(b.meta.name)))
    && (a.score.domain == b.score.domain && a.score.fuzzy == b.score.fuzzy && lower(a.meta.name) == lower(b.meta.name) ==>
          a.meta.updatedAt >= b.meta.updatedAt)
  }

  /** Context beats typing: an entry of a stronger domain match stands before every weaker one, whatever
      their scores; then better scores, then names, then newer entries. */
  lemma RankIsOrdered(se: Searcher, secrets: seq<SecretMeta>, query: string, ctx: SearchContext, i: nat, j: nat)
    ensures var r := Rank(se, secrets, query, ctx); i < j < |r| ==> Precedes(se.lower, r[i], r[j])
  {
    hide Shown, Entry, Chars.Trim, StableSort.Sort, Lex.Less, Rank;
    var r := Rank(se, secrets, query, ctx);
    RankIsTheStableOrder(se, secrets, query, ctx, r);
    if i < j < |r| {
      assert RankOrder(se.lower)(r[i], r[j]);
      RankMembers(se, secrets, query, ctx, r[i]);
      RankMembers(se, secrets, query, ctx, r[j]);
      RecencyIsUpdatedAt(se, Chars.Trim(query), ctx, r[i]);
      RecencyIsUpdatedAt(se, Chars.Trim(query), ctx, r[j]);
    }
  }

  lemma RecencyIsUpdatedAt(se: Searcher, query: string, ctx: SearchContext, e: Ranked)
    requires Entry(se, query, ctx, e.meta) == Some(e)
    ensures e.score.recency == e.meta.updatedAt
  {
  }

  // ---- What the order goes by ------------------------------------------------------------------------

  /** A text that a query is matched against: the name, the domain, application and username when there
      are any, and each tag. */
  predicate Searched(meta: SecretMeta, f: string) {
    || f == meta.name
    || (f != "" && (f == meta.domain || f == meta.application || f == meta.username))
    || f in meta.tags
  }

  lemma SearchedExactly(meta: SecretMeta, f: string)
    ensures f in Haystacks(meta) <==> Searched(meta, f)
  {
  }

  /** The grade of a secret in a context, by what it is bound to. */
  lemma GradeExactly(se: Searcher, meta: SecretMeta, ctx: SearchContext)
    ensures OnSite(se, meta, ctx) ==> DomainScore(se, meta, ctx) == MatchDomain(se.registrable, meta.domain, ctx.host.value)
    ensures !OnSite(se, meta, ctx) && BoundToApplication(meta, ctx) ==> DomainScore(se, meta, ctx) == RegistrableDomain
    ensures !OnSite(se, meta, ctx) && !BoundToApplication(meta, ctx) ==> DomainScore(se, meta, ctx) == NoMatch
  {
    hide MatchDomain, Chars.Trim;
  }

  /** What each entry of a ranking is ordered by: the grade of its domain or application, the best score of
      any field for the query, and the time of its last change. */
  lemma RankedByMerit(se: Searcher, secrets: seq<SecretMeta>, query: string, ctx: SearchContext, e: Ranked)
    requires e in Rank(se, secrets, query, ctx)
    ensures OnSite(se, e.meta, ctx) ==> e.score.domain == MatchDomain(se.registrable, e.meta.domain, ctx.host.value)
    ensures !OnSite(se, e.meta, ctx) && BoundToApplication(e.meta, ctx) ==> e.score.domain == RegistrableDomain
    ensures !OnSite(se, e.meta, ctx) && !BoundToApplication(e.meta, ctx) ==> e.score.domain == NoMatch
    ensures Chars.Trim(query) == "" ==> e.score.fuzzy == 0
    ensures Chars.Trim(query) != "" ==>
              && (exists f | Searched(e.meta, f) :: se.score(Chars.Trim(query), f) == Some(e.score.fuzzy))
              && forall f | Searched(e.meta, f) && se.score(Chars.Trim(query), f).Some? ::
                   se.score(Chars.Trim(query), f).value <= e.score.fuzzy
    ensures e.score.recency == e.meta.updatedAt
  {
    hide Rank, Haystacks, Best, DomainScore, Chars.Trim, OnSite, BoundToApplication, Searched;
    var q := Chars.Trim(query);
    RankMembers(se, secrets, query, ctx, e);
    GradeExactly(se, e.meta, ctx);
    BestIsTheMaximum(se, q, Haystacks(e.meta));
    forall f ensures f in Haystacks(e.meta) <==> Searched(e.meta, f) {
      SearchedExactly(e.meta, f);
    }
  }

  /** Of two entries the better grade stands first: the host itself, a parent of it, a sibling or the focused
      application, none of these. */
  lemma BetterGradeFirst(se: Searcher, secrets: seq<SecretMeta>, query: string, ctx: SearchContext, i: nat, j: nat)
    requires i < j < |Rank(se, secrets, query, ctx)|
    ensures var (a, b) := (Rank(se, secrets, query, ctx)[i].score.domain, Rank(se, secrets, query, ctx)[j].score.domain);
            && (b == Exact ==> a == Exact)
            && (b == ParentDomain ==> a in {Exact, ParentDomain})
            && (b == RegistrableDomain ==> a in {Exact, ParentDomain, RegistrableDomain})
  {
    hide Rank;
    RankIsOrdered(se, secrets, query, ctx, i, j);
  }

  /** The secret is for the focused application, and neither for the host nor for a parent of it. */
  predicate OnlyBound(se: Searcher, meta: SecretMeta, ctx: SearchContext) {
    BoundToApplication(meta, ctx) && !OnSite(se, meta, ctx)
  }

  /** An exact or parent match of the host stands before every secret that is only bound to the focused
      application. */
  lemma SiteBeforeApplication(se: Searcher, secrets: seq<SecretMeta>, query: string, ctx: SearchContext, i: nat, j: nat)
    requires ctx.host.Some? && i < |Rank(se, secrets, query, ctx)| && j < |Rank(se, secrets, query, ctx)|
    requires OnlyBound(se, Rank(se, secrets, query, ctx)[i].meta, ctx)
    requires MatchDomain(se.registrable, Rank(se, secrets, query, ctx)[j].meta.domain, ctx.host.value) in {Exact, ParentDomain}
    ensures j < i
  {
    hide Rank, MatchDomain, BoundToApplication;
    var r := Rank(se, secrets, query, ctx);
    RankedByMerit(se, secrets, query, ctx, r[i]);
    RankedByMerit(se, secrets, query, ctx, r[j]);
    RankIsOrdered(se, secrets, query, ctx, i, j);
  }

  /** The site filter alone never empties the list: it is empty exactly when the query keeps nothing. */
  lemma NarrowingNeverEmpties(se: Searcher, secrets: seq<SecretMeta>, query: string, ctx: SearchContext)
    ensures Rank(se, secrets, query, ctx) == []
       <==> forall meta | meta in secrets :: Entry(se, Chars.Trim(query), ctx, meta).None?
  {
    hide Rank, Entry, DomainScore, Chars.Trim;
    var r := Rank(se, secrets, query, ctx);
    if r != [] {
      RankMembers(se, secrets, query, ctx, r[0]);
    }
    if meta :| meta in secrets && Entry(se, Chars.Trim(query), ctx, meta).Some? {
      var kept := meta;
      if Narrows(se, secrets, query, ctx) {
        kept :| kept in secrets && Entry(se, Chars.Trim(query), ctx, kept).Some? && DomainScore(se, kept, ctx) != NoMatch;
      }
      EntryIsOf(se, Chars.Trim(query), ctx, kept);
      RankMembers(se, secrets, query, ctx, Entry(se, Chars.Trim(query), ctx, kept).value);
    }
  }

  lemma EntryIsOf(se: Searcher, query: string, ctx: SearchContext, meta: SecretMeta)
    requires Entry(se, query, ctx, meta).Some?
    ensures Entry(se, query, ctx, meta).value.meta == meta
    ensures Entry(se, query, ctx, meta).value.score.domain == DomainScore(se, meta, ctx)
  {
  }

  // ---- When everything is shown ----------------------------------------------------------------------

  /** Every entry that the query keeps is in the ranking. */
  ghost predicate ShowsAllKept(se: Searcher, secrets: seq<SecretMeta>, query: string, ctx: SearchContext) {
    forall meta | meta in secrets && Kept(se, query, ctx, meta) ::
      Entry(se, Chars.Trim(query), ctx, meta).value in Rank(se, secrets, query, ctx)
  }

  ghost predicate NoneBound(se: Searcher, secrets: seq<SecretMeta>, query: string, ctx: SearchContext) {
    forall meta | meta in secrets && Kept(se, query, ctx, meta) :: !BoundToApplication(meta, ctx)
  }

  ghost predicate AllBound(se: Searcher, secrets: seq<SecretMeta>, query: string, ctx: SearchContext) {
    forall meta | meta in secrets && Kept(se, query, ctx, meta) :: BoundToApplication(meta, ctx)
  }

  /** An entry that the query keeps is hidden exactly when the list is narrowed and it is out of context. */
  lemma ShownExactly(se: Searcher, secrets: seq<SecretMeta>, query: string, ctx: SearchContext, meta: SecretMeta)
    requires meta in secrets && Kept(se, query, ctx, meta)
    ensures Entry(se, Chars.Trim(query), ctx, meta).value in Rank(se, secrets, query, ctx)
       <==> !Narrows(se, secrets, query, ctx) || OnSite(se, meta, ctx) || BoundToApplication(meta, ctx)
  {
    hide Rank, Narrows, Entry, DomainScore, OnSite, BoundToApplication, Chars.Trim;
    EntryIsOf(se, Chars.Trim(query), ctx, meta);
    RankMembers(se, secrets, query, ctx, Entry(se, Chars.Trim(query), ctx, meta).value);
    ScoredExactly(se, meta, ctx);
  }

  /** When no entry matches the host, all that the query keeps is shown if and only if none of it, or all
      of it, is bound to the focused application. */
  lemma ForeignHostShowsAllExactly(se: Searcher, secrets: seq<SecretMeta>, query: string, ctx: SearchContext)
    requires ctx.host.Some?
    requires forall meta | meta in secrets && Kept(se, query, ctx, meta) :: !OnSite(se, meta, ctx)
    ensures ShowsAllKept(se, secrets, query, ctx)
       <==> NoneBound(se, secrets, query, ctx) || AllBound(se, secrets, query, ctx)
  {
    hide Rank, Entry, DomainScore, OnSite, BoundToApplication, Chars.Trim;
    forall meta | meta in secrets && Kept(se, query, ctx, meta)
      ensures Entry(se, Chars.Trim(query), ctx, meta).value in Rank(se, secrets, query, ctx)
         <==> !Narrows(se, secrets, query, ctx) || BoundToApplication(meta, ctx)
      ensures DomainScore(se, meta, ctx) != NoMatch <==> BoundToApplication(meta, ctx)
    {
      ShownExactly(se, secrets, query, ctx, meta);
      ScoredExactly(se, meta, ctx);
    }
  }

  lemma NoDomainNoSite(se: Searcher, meta: SecretMeta, ctx: SearchContext)
    requires meta.domain == ""
    ensures !OnSite(se, meta, ctx)
  {
    assert NormalizeHost("") == None;
  }

  lemma BoundToFirefox(meta: SecretMeta, host: Option<string>)
    ensures BoundToApplication(meta, SearchContext(host, Some("firefox")))
       <==> meta.application != "" && Chars.EqIgnoreAsciiCase(meta.application, "firefox")
  {
    assert Chars.Trim("firefox") == "firefox";
  }

  lemma BlankKeeps(se: Searcher, ctx: SearchContext, meta: SecretMeta)
    ensures Chars.Trim("") == "" && Kept(se, "", ctx, meta)
  {
  }

  /** One secret for the focused browser, and another: no host matches either, yet the other is hidden. */
  lemma BrowserSecretHidesTheOther(se: Searcher, a: SecretMeta, b: SecretMeta)
    requires a.domain == "" && a.application == "firefox" && b.domain == "" && b.application == ""
    ensures var ctx := SearchContext(Some("x.com"), Some("firefox"));
            && !OnSite(se, a, ctx) && !OnSite(se, b, ctx)
            && Kept(se, "", ctx, b)
            && Entry(se, Chars.Trim(""), ctx, b).value !in Rank(se, [a, b], "", ctx)
  {
    hide Rank, Entry, DomainScore, OnSite, BoundToApplication, Chars.Trim, NormalizeHost, Chars.EqIgnoreAsciiCase;
    var ctx := SearchContext(Some("x.com"), Some("firefox"));
    NoDomainNoSite(se, a, ctx);
    NoDomainNoSite(se, b, ctx);
    BoundToFirefox(a, Some("x.com"));
    BoundToFirefox(b, Some("x.com"));
    SameLetters("firefox");
    BlankKeeps(se, ctx, a);
    BlankKeeps(se, ctx, b);
    ScoredExactly(se, a, ctx);
    assert a in [a, b] && Narrows(se, [a, b], "", ctx);
    ShownExactly(se, [a, b], "", ctx, b);
  }

  lemma SameLetters(s: string)
    ensures Chars.EqIgnoreAsciiCase(s, s)
  {
  }

  function MetasOfRanked(r: seq<Ranked>): seq<SecretMeta> {
    seq(|r|, i requires 0 <= i < |r| => r[i].meta)
  }

  lemma {:induction false} BlankKeepsAll(se: Searcher, ctx: SearchContext, secrets: seq<SecretMeta>)
    ensures MetasOfRanked(Entries(se, "", ctx, secrets)) == secrets
    decreases |secrets|
  {
    if secrets != [] {
      var n := |secrets| - 1;
      BlankKeepsAll(se, ctx, secrets[..n]);
      assert secrets == secrets[..n] + [secrets[n]];
    }
  }

  lemma {:induction false} AllInContext(entries: seq<Ranked>)
    requires forall i | 0 <= i < |entries| :: entries[i].score.domain != NoMatch
    ensures InContext(entries) == entries
    decreases |entries|
  {
    if entries != [] {
      AllInContext(entries[1..]);
      assert entries == [entries[0]] + entries[1..];
    }
  }

  /** With a blank query the ranking rearranges one entry per stored secret if and only if it is not
      narrowed or every secret is on the site or bound to the focused application. */
  lemma BlankQueryListsEverything(se: Searcher, secrets: seq<SecretMeta>, query: string, ctx: SearchContext)
    requires Chars.Trim(query) == ""
    ensures var entries := Entries(se, "", ctx, secrets);
            && MetasOfRanked(entries) == secrets
            && (multiset(Rank(se, secrets, query, ctx)) == multiset(entries)
                <==> !Narrows(se, secrets, query, ctx)
                     || forall meta | meta in secrets :: OnSite(se, meta, ctx) || BoundToApplication(meta, ctx))
  {
    hide StableSort.Sort, DomainScore, OnSite, BoundToApplication, Haystacks, Best;
    var entries := Entries(se, "", ctx, secrets);
    var shown := Shown(se, "", ctx, secrets);
    AnyInContextMeans(se, "", ctx, secrets);
    StableSort.SortKeeps(shown, RankOrder(se.lower));
    BlankKeepsAll(se, ctx, secrets);
    forall i | 0 <= i < |entries| ensures entries[i].meta in secrets && entries[i].score.domain == DomainScore(se, entries[i].meta, ctx) {
      EntriesMembers(se, "", ctx, secrets, entries[i]);
    }
    if !Narrows(se, secrets, query, ctx) {
      assert shown == entries;
    } else if meta :| meta in secrets && !(OnSite(se, meta, ctx) || BoundToApplication(meta, ctx)) {
      ScoredExactly(se, meta, ctx);
      EntriesMembers(se, "", ctx, secrets, Entry(se, "", ctx, meta).value);
      InContextMembers(entries, Entry(se, "", ctx, meta).value);
      assert Entry(se, "", ctx, meta).value in multiset(entries) && Entry(se, "", ctx, meta).value !in multiset(shown);
    } else {
      forall i | 0 <= i < |entries| ensures entries[i].score.domain != NoMatch {
        ScoredExactly(se, entries[i].meta, ctx);
      }
      AllInContext(entries);
    }
  }
}
