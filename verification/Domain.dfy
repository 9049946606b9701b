/** Hostname normalisation and domain matching (`search/domain.rs`). */
module Domain {
  import opened Common
  import opened Chars

  // ---- Normalisation ------------------------------------------------------------------

  const HOSTLESS_SCHEMES := ["about", "data", "javascript", "chrome", "file", "blob", "view-source", "moz-extension"]

  /** What precedes the first of the `stops`. */
  function Before(s: string, stops: string): (r: string)
    ensures |r| <= |s|
  {
    if s == "" || s[0] in stops then "" else [s[0]] + Before(s[1..], stops)
  }

  predicate HostlessScheme(scheme: string) {
    exists k | 0 <= k < |HOSTLESS_SCHEMES| :: EqIgnoreAsciiCase(scheme, HOSTLESS_SCHEMES[k])
  }

  predicate Hostless(s: string) {
    ':' in s && HostlessScheme(Before(s, ":"))
  }

  /** `find("://")`. */
  function FindScheme(s: string): (r: Option<nat>)
    ensures r.Some? ==> r.value + 3 <= |s| && s[r.value..r.value + 3] == "://"
  {
    if |s| < 3 then None
    else if s[..3] == "://" then Some(0)
    else
      match FindScheme(s[1..])
      case None => None
      case Some(i) => Some(i + 1)
  }

  function AfterScheme(s: string): string {
    match FindScheme(s)
    case None => s
    case Some(i) => s[i + 3..]
  }

  /** What follows the last `@`, or everything. */
  function AfterLastAt(s: string): string {
    if s == "" || s[|s| - 1] == '@' then "" else AfterLastAt(s[..|s| - 1]) + [s[|s| - 1]]
  }

  /** Drops the port, but not the colons of a bracketed IPv6 literal. */
  function HostPart(hostPort: string): string {
    if hostPort != "" && hostPort[0] == '[' then
      if ']' in hostPort then Before(hostPort, "]") + "]" else hostPort
    else Before(hostPort, ":")
  }

  function TrimDots(s: string): string {
    if s != "" && s[|s| - 1] == '.' then TrimDots(s[..|s| - 1]) else s
  }

  function StripWww(s: string): string {
    if "www." <= s then s[4..] else s
  }

  predicate HasAlphanumeric(s: string) {
    exists i | 0 <= i < |s| :: IsAlphanumeric(s[i])
  }

  /** A host without what may differ in its spelling: the letter case, one leading `www.`, and trailing
      dots. */
  function Bare(host: string): string {
    StripWww(ToLower(TrimDots(host)))
  }

  /** The end of the pipeline: an authority's host, made comparable. */
  function Comparable(host: string): Option<string> {
    var h := Bare(host);
    if h == "" || !HasAlphanumeric(h) then None else Some(h)
  }

  function HostOf(s: string): Option<string> {
    if s == "" || Hostless(s) then None
    else Comparable(HostPart(AfterLastAt(Before(AfterScheme(s), "/?#"))))
  }

  function NormalizeHost(input: string): Option<string> {
    HostOf(Trim(input))
  }

  // ---- Facts about the stages ------------------------------------------------------------

  ghost predicate Without(s: string, chars: string) {
    forall i | 0 <= i < |s| :: s[i] !in chars
  }

  lemma {:induction false} BeforeStops(s: string, stops: string)
    ensures Before(s, stops) <= s && Without(Before(s, stops), stops)
    ensures |Before(s, stops)| < |s| ==> s[|Before(s, stops)|] in stops
    decreases |s|
  {
    if s != "" && s[0] !in stops {
      BeforeStops(s[1..], stops);
      assert s == [s[0]] + s[1..];
    }
  }

  lemma {:induction false} BeforeConcat(a: string, b: string, stops: string)
    requires Without(a, stops)
    ensures Before(a + b, stops) == a + Before(b, stops)
    decreases |a|
  {
    if a == "" {
      assert a + b == b;
    } else {
      assert (a + b)[1..] == a[1..] + b;
      BeforeConcat(a[1..], b, stops);
    }
  }

  lemma BeforeAll(a: string, stops: string)
    requires Without(a, stops)
    ensures Before(a, stops) == a
  {
    BeforeConcat(a, "", stops);
    assert a + "" == a;
  }

  /** The first "://" is found where nothing earlier is one. */
  lemma {:induction false} SchemeFound(page: string, rest: string)
    requires FindScheme(page).None?
    ensures FindScheme(page + "://" + rest) == Some(|page|)
    ensures AfterScheme(page + "://" + rest) == rest
    decreases |page|
  {
    var s := page + "://" + rest;
    if page == "" {
      assert s[..3] == "://";
    } else {
      NoEarlierScheme(page, rest);
      assert s[1..] == page[1..] + "://" + rest;
      ShorterHasNone(page);
      SchemeFound(page[1..], rest);
      assert s[|page| + 3..] == rest;
    }
  }

  lemma NoEarlierScheme(page: string, rest: string)
    requires page != "" && FindScheme(page).None?
    ensures (page + "://" + rest)[..3] != "://"
  {
    var s := page + "://" + rest;
    if |page| >= 3 {
      assert page[..3] == s[..3];
    } else {
      assert s[|page|] == ':' && s[..3][|page|] == s[|page|];
    }
  }

  lemma ShorterHasNone(page: string)
    requires page != "" && FindScheme(page).None?
    ensures FindScheme(page[1..]).None?
  {
  }

  lemma {:induction false} NoSchemeFound(s: string)
    requires Without(s, "/")
    ensures FindScheme(s) == None && AfterScheme(s) == s
    decreases |s|
  {
    if |s| >= 3 {
      assert s[..3][1] == s[1] != '/';
      NoSchemeFound(s[1..]);
    }
  }

  lemma {:induction false} AfterLastAtIs(a: string, b: string)
    requires Without(b, "@")
    ensures AfterLastAt(b) == b && AfterLastAt(a + "@" + b) == b
    decreases |b|
  {
    if b == "" {
      assert (a + "@" + b)[|a + "@" + b| - 1] == '@';
    } else {
      var n := |b| - 1;
      AfterLastAtIs(a, b[..n]);
      assert b == b[..n] + [b[n]];
      assert (a + "@" + b)[..|a| + 1 + n] == a + "@" + b[..n];
    }
  }

  lemma {:induction false} AfterLastAtIsSuffix(s: string)
    ensures |AfterLastAt(s)| <= |s| && AfterLastAt(s) == s[|s| - |AfterLastAt(s)|..] && Without(AfterLastAt(s), "@")
    decreases |s|
  {
    if s != "" && s[|s| - 1] != '@' {
      AfterLastAtIsSuffix(s[..|s| - 1]);
    }
  }

  lemma {:induction false} TrimDotsIsPrefix(s: string)
    ensures TrimDots(s) <= s
    ensures TrimDots(s) != "" ==> TrimDots(s)[|TrimDots(s)| - 1] != '.'
    decreases |s|
  {
    if s != "" && s[|s| - 1] == '.' {
      TrimDotsIsPrefix(s[..|s| - 1]);
    }
  }

  lemma {:induction false} TrimEndConcat(a: string, b: string)
    requires a != "" && !IsWhitespace(a[|a| - 1])
    ensures TrimEnd(a + b) == a + TrimEnd(b)
    decreases |b|
  {
    if b == "" {
      assert a + b == a;
    } else {
      var n := |b| - 1;
      assert (a + b)[..|a| + n] == a + b[..n];
      TrimEndConcat(a, b[..n]);
    }
  }

  lemma {:induction false} TrimEndIsPrefix(s: string)
    ensures TrimEnd(s) <= s
    decreases |s|
  {
    if s != "" && IsWhitespace(s[|s| - 1]) {
      TrimEndIsPrefix(s[..|s| - 1]);
    }
  }

  lemma TrimKeepsTheStart(a: string, b: string)
    requires a != "" && !IsWhitespace(a[0]) && !IsWhitespace(a[|a| - 1])
    ensures Trim(a + b) == a + TrimEnd(b)
  {
    assert (a + b)[0] == a[0];
    TrimEndConcat(a, b);
  }

  lemma {:induction false} TrimShortens(s: string)
    ensures |TrimStart(s)| <= |s| && (|TrimStart(s)| == |s| ==> TrimStart(s) == s)
    ensures |Trim(s)| <= |TrimStart(s)| && (|Trim(s)| == |s| ==> Trim(s) == s)
    decreases |s|
  {
    if s != "" && IsWhitespace(s[0]) {
      TrimShortens(s[1..]);
    }
    TrimEndIsPrefix(TrimStart(s));
  }

  // ---- Assembled URLs ------------------------------------------------------------------------

  /** A host as it stands in an authority: a bracketed literal, or a name without colons. */
  ghost predicate AuthorityHost(h: string) {
    && Without(h, "/?#@")
    && (h != "" ==> !IsWhitespace(h[0]) && !IsWhitespace(h[|h| - 1]))
    && (if h != "" && h[0] == '[' then h[|h| - 1] == ']' && Without(h[..|h| - 1], "]") else Without(h, ":"))
  }

  /** What may stand before the "://" of a URL that names a host: a scheme, or a page that embeds the URL. */
  ghost predicate Leading(page: string) {
    && FindScheme(page).None? && !HostlessScheme(Before(page, ":"))
    && (page != "" ==> !IsWhitespace(page[0]))
  }

  /** A scheme that names hosts. */
  ghost predicate PlainScheme(scheme: string) {
    && Without(scheme, ":") && !HostlessScheme(scheme)
    && (scheme != "" ==> !IsWhitespace(scheme[0]))
  }

  lemma SchemesLead(scheme: string)
    requires PlainScheme(scheme)
    ensures Leading(scheme)
  {
    NoColonNoScheme(scheme);
    BeforeAll(scheme, ":");
  }

  ghost predicate Port(port: string) {
    port == "" || (port[0] == ':' && forall i | 1 <= i < |port| :: IsDigit(port[i]))
  }

  ghost predicate UserInfo(user: string) {
    user == "" || (user[|user| - 1] == '@' && Without(user, "/?#"))
  }

  /** Path, query and fragment: anything after one of their first characters. */
  ghost predicate Tail(tail: string) {
    tail == "" || tail[0] in "/?#"
  }

  lemma PortHasNoDelimiter(port: string)
    requires Port(port)
    ensures Without(port, "/?#@") && (port != "" ==> !IsWhitespace(port[|port| - 1]))
  {
  }

  lemma HostPartIs(h: string, port: string)
    requires AuthorityHost(h) && Port(port)
    ensures HostPart(h + port) == h
  {
    if h != "" && h[0] == '[' {
      BracketPart(h, port);
    } else {
      PlainPart(h, port);
    }
  }

  lemma BracketPart(h: string, port: string)
    requires h != "" && h[0] == '[' && h[|h| - 1] == ']' && Without(h[..|h| - 1], "]")
    ensures HostPart(h + port) == h
  {
    var n := |h| - 1;
    assert h == h[..n] + "]" && h + port == h[..n] + ("]" + port);
    BeforeConcat(h[..n], "]" + port, "]");
    assert Before("]" + port, "]") == "" && h[..n] + "" == h[..n];
    hide Before;
    assert (h + port)[n] == ']' && (h + port)[0] == '[';
  }

  lemma PlainPart(h: string, port: string)
    requires Without(h, ":") && (h == "" || h[0] != '[') && (port == "" || port[0] == ':')
    ensures HostPart(h + port) == h
  {
    BeforeConcat(h, port, ":");
    assert Before(port, ":") == "" && h + "" == h;
    hide Before;
    assert h + port != "" ==> (h + port)[0] == if h != "" then h[0] else port[0];
  }

  /** The authority of `host`, on its own. */
  lemma BareHost(h: string)
    requires AuthorityHost(h)
    ensures NormalizeHost(h) == Comparable(h)
  {
    if h == "" {
      assert TrimDots(h) == "";
    } else {
      TrimKeepsTheStart(h, "");
      assert h + "" == h;
      if h[0] == '[' && ':' in h {
        BeforeStops(h, ":");
        BracketIsNoScheme(Before(h, ":"));
      }
      NoSchemeFound(h);
      BeforeAll(h, "/?#");
      AfterLastAtIs("", h);
      HostPartIs(h, "");
    }
  }

  lemma SchemesStartWithLetters(scheme: string)
    requires scheme in HOSTLESS_SCHEMES
    ensures scheme != "" && IsLower(scheme[0])
  {
  }

  lemma OtherStart(s: string, scheme: string)
    requires s != "" && s[0] == '[' && scheme != "" && IsLower(scheme[0])
    ensures !EqIgnoreAsciiCase(s, scheme)
  {
    assert ToLower(s)[0] == '[';
    assert ToLower(scheme)[0] == scheme[0];
  }

  lemma BracketIsNoScheme(s: string)
    requires s != "" && s[0] == '['
    ensures !HostlessScheme(s)
  {
    forall k | 0 <= k < |HOSTLESS_SCHEMES| ensures !EqIgnoreAsciiCase(s, HOSTLESS_SCHEMES[k]) {
      SchemesStartWithLetters(HOSTLESS_SCHEMES[k]);
      OtherStart(s, HOSTLESS_SCHEMES[k]);
    }
  }

  /** A page in which a URL is embedded, before which there is no other "://", has the answer of the embedded
      host, whatever user information, port, path, query and fragment the URL has. */
  lemma EmbeddedUrlWins(page: string, user: string, h: string, port: string, tail: string)
    requires Leading(page) && UserInfo(user) && AuthorityHost(h) && Port(port) && Tail(tail)
    ensures NormalizeHost(page + "://" + user + h + port + tail) == NormalizeHost(h)
  {
    hide HostOf, Comparable, HostPart, AfterLastAt, TrimEnd, Leading, AuthorityHost, UserInfo, Port, Tail;
    var authority := user + h + port;
    var tail' := TrimEnd(tail);
    assert page + "://" + user + h + port + tail == page + "://" + authority + tail;
    TrimmedUrl(page, user, h, port, tail);
    TailStaysTail(tail);
    AuthorityHasNoDelimiter(user, h, port);
    UrlHost(page, authority, tail');
    UserDropped(user, h + port);
    assert authority == user + (h + port);
    HostPartIs(h, port);
    BareHost(h);
  }

  /** Every URL assembled from a scheme that names hosts, optional user information, a host, an optional
      port, and any path, query and fragment has the answer of the bare host. */
  lemma AssembledUrl(scheme: string, user: string, h: string, port: string, tail: string)
    requires PlainScheme(scheme) && UserInfo(user) && AuthorityHost(h) && Port(port) && Tail(tail)
    ensures NormalizeHost(scheme + "://" + user + h + port + tail) == NormalizeHost(h)
  {
    hide NormalizeHost, PlainScheme, Leading, AuthorityHost, UserInfo, Port, Tail;
    SchemesLead(scheme);
    EmbeddedUrlWins(scheme, user, h, port, tail);
  }

  lemma TrimmedUrl(page: string, user: string, h: string, port: string, tail: string)
    requires Leading(page) && UserInfo(user) && AuthorityHost(h) && Port(port)
    ensures Trim(page + "://" + (user + h + port) + tail) == page + "://" + (user + h + port) + TrimEnd(tail)
  {
    PortHasNoDelimiter(port);
    var core := page + "://" + (user + h + port);
    assert core[|core| - 1] == if port != "" then port[|port| - 1] else if h != "" then h[|h| - 1]
                               else if user != "" then '@' else '/';
    TrimKeepsTheStart(core, tail);
  }

  lemma AuthorityHasNoDelimiter(user: string, h: string, port: string)
    requires UserInfo(user) && AuthorityHost(h) && Port(port)
    ensures Without(user + h + port, "/?#") && Without(h + port, "@")
  {
    PortHasNoDelimiter(port);
  }

  lemma {:induction false} BeforeInFront(a: string, b: string, stops: string)
    requires b != "" && b[0] in stops
    ensures Before(a + b, stops) == Before(a, stops)
    decreases |a|
  {
    if a == "" {
      assert a + b == b;
    } else {
      assert (a + b)[0] == a[0] && (a + b)[1..] == a[1..] + b;
      BeforeInFront(a[1..], b, stops);
    }
  }

  lemma UrlHost(page: string, authority: string, tail: string)
    requires Leading(page) && Without(authority, "/?#") && Tail(tail)
    ensures HostOf(page + "://" + authority + tail) == Comparable(HostPart(AfterLastAt(authority)))
  {
    hide Comparable, HostPart, AfterLastAt, Hostless, FindScheme, AfterScheme;
    var s := page + "://" + authority + tail;
    assert s == page + "://" + (authority + tail);
    LeadingIsNotHostless(page, authority + tail);
    SchemeFound(page, authority + tail) by {
      assert Leading(page);
    }
    BeforeConcat(authority, tail, "/?#");
    assert Before(tail, "/?#") == "";
    assert authority + "" == authority;
  }

  lemma LeadingIsNotHostless(page: string, rest: string)
    requires Leading(page)
    ensures !Hostless(page + "://" + rest)
  {
    hide HostlessScheme;
    assert page + "://" + rest == page + ("://" + rest);
    BeforeInFront(page, "://" + rest, ":");
  }

  // ---- Pages typed without a scheme --------------------------------------------------------------

  lemma TrimmedPage(h: string, port: string, tail: string)
    requires AuthorityHost(h) && h != "" && Port(port)
    ensures Trim(h + port + tail) == h + port + TrimEnd(tail)
  {
    PortHasNoDelimiter(port);
    var core := h + port;
    assert core[0] == h[0] && core[|core| - 1] == if port != "" then port[|port| - 1] else h[|h| - 1];
    TrimKeepsTheStart(core, tail);
  }

  /** A page is mistaken for a hostless one exactly when its host is named like a hostless scheme and is
      followed by a port. */
  lemma HostlessHost(h: string, port: string, tail: string)
    requires AuthorityHost(h) && h != "" && Port(port) && Tail(tail)
    ensures Hostless(h + port + tail) <==> port != "" && HostlessScheme(h)
  {
    hide HostlessScheme, AuthorityHost;
    var s := h + port + tail;
    BeforeStops(s, ":");
    if h[0] == '[' {
      if ':' in s {
        assert Before(s, ":") != "" ==> Before(s, ":")[0] == '[';
        assert s[0] == '[' && Before(s, ":") != "";
        BracketIsNoScheme(Before(s, ":"));
      }
      BracketIsNoScheme(h);
    } else {
      NamesHaveNoColon(h);
      if port != "" {
        assert s == h + (port + tail);
        BeforeConcat(h, port + tail, ":");
        assert Before(port + tail, ":") == "" && h + "" == h;
        assert s[|h|] == ':';
      } else if ':' in s {
        assert s == h + tail;
        BeforeConcat(h, tail, ":");
        ColonAfterSlash(h, tail);
      }
    }
  }

  lemma NamesHaveNoColon(h: string)
    requires AuthorityHost(h) && h != "" && h[0] != '['
    ensures Without(h, ":")
  {
  }

  /** What precedes a colon in the tail contains the delimiter that starts the tail. */
  lemma ColonAfterSlash(h: string, tail: string)
    requires Tail(tail) && Without(h, ":") && ':' in h + tail
    ensures !HostlessScheme(h + Before(tail, ":"))
  {
    hide HostlessScheme;
    assert tail != "";
    assert Before(tail, ":") == [tail[0]] + Before(tail[1..], ":");
    var s := h + Before(tail, ":");
    assert s[|h|] == tail[0];
    DelimiterIsNoScheme(s, |h|);
  }

  lemma DelimiterIsNoScheme(s: string, i: nat)
    requires i < |s| && s[i] in "/?#"
    ensures !HostlessScheme(s)
  {
    forall k | 0 <= k < |HOSTLESS_SCHEMES| ensures !EqIgnoreAsciiCase(s, HOSTLESS_SCHEMES[k]) {
      assert ToLower(s)[i] == s[i];
      NoDelimiter(HOSTLESS_SCHEMES[k]);
    }
  }

  lemma NoDelimiter(scheme: string)
    requires scheme in HOSTLESS_SCHEMES
    ensures forall j | 0 <= j < |scheme| :: LowerChar(scheme[j]) !in "/?#"
  {
  }

  /** Without "://" anywhere, everything after the authority is cut off. */
  lemma PlainPage(h: string, port: string, tail: string)
    requires AuthorityHost(h) && h != "" && Port(port) && Tail(tail)
    requires !Hostless(h + port + tail) && FindScheme(h + port + tail).None?
    ensures HostOf(h + port + tail) == Comparable(h)
  {
    hide Comparable, HostPart, AfterLastAt, Hostless, AuthorityHost, Port;
    var s := h + port + tail;
    AuthorityHasNoDelimiter("", h, port);
    assert "" + h + port == h + port;
    BeforeConcat(h + port, tail, "/?#");
    assert Before(tail, "/?#") == "" && h + port + "" == h + port;
    AfterLastAtIs("", h + port);
    HostPartIs(h, port);
  }

  /** The host in the authority that follows the first "://" of a page. */
  function EmbeddedHost(page: string): string {
    HostPart(AfterLastAt(Before(AfterScheme(page), "/?#")))
  }

  /** A host named like a hostless scheme is a host all the same when it stands alone. */
  lemma SchemeNamedHost(h: string)
    requires AuthorityHost(h) && HostlessScheme(h)
    ensures NormalizeHost(h).Some?
  {
    hide HostOf, NormalizeHost, Comparable, ToLower;
    BareHost(h);
    var k :| 0 <= k < |HOSTLESS_SCHEMES| && EqIgnoreAsciiCase(h, HOSTLESS_SCHEMES[k]);
    var scheme := HOSTLESS_SCHEMES[k];
    SchemeLetters(scheme);
    SchemeIsLower(scheme);
    LowerStays(scheme);
    LetteredHost(h, scheme);
  }

  lemma LetteredHost(h: string, scheme: string)
    requires ToLower(h) == scheme && scheme != "" && IsLower(scheme[0]) && scheme[0] != 'w' && IsLower(scheme[|scheme| - 1])
    ensures Comparable(h).Some?
  {
    assert scheme[|scheme| - 1] == LowerChar(h[|h| - 1]);
    hide ToLower, TrimDots;
    NoDotsToTrim(h);
    assert StripWww(scheme) == scheme;
    assert IsAlphanumeric(scheme[0]);
  }

  lemma SchemeLetters(scheme: string)
    requires scheme in HOSTLESS_SCHEMES
    ensures scheme != "" && IsLower(scheme[0]) && scheme[0] != 'w' && IsLower(scheme[|scheme| - 1])
  {
  }

  lemma SchemeIsLower(scheme: string)
    requires scheme in HOSTLESS_SCHEMES
    ensures forall i | 0 <= i < |scheme| :: !IsUpper(scheme[i])
  {
  }

  /** The same host in another spelling, or both no host at all. */
  predicate SameHost(a: string, b: string) {
    Bare(a) == Bare(b) || (!HasAlphanumeric(Bare(a)) && !HasAlphanumeric(Bare(b)))
  }

  lemma SameHostSameAnswer(a: string, b: string)
    ensures Comparable(a) == Comparable(b) <==> SameHost(a, b)
  {
  }

  /** A page typed without a scheme has the answer of its host exactly when the host is not named like a
      hostless scheme before a port, and no URL of another host is embedded in the page. */
  lemma SchemelessExactly(h: string, port: string, tail: string)
    requires AuthorityHost(h) && h != "" && Port(port) && Tail(tail)
    ensures var page := h + port + TrimEnd(tail);
            NormalizeHost(h + port + tail) == NormalizeHost(h) <==>
              !(port != "" && HostlessScheme(h)) && (FindScheme(page).None? || SameHost(EmbeddedHost(page), h))
  {
    hide HostlessScheme, Comparable, AfterScheme, TrimEnd, AuthorityHost, Tail, Port, Hostless, FindScheme, HostPart, AfterLastAt, Before,
      SameHost;
    var s := h + port + TrimEnd(tail);
    TrimmedPage(h, port, tail);
    TailStaysTail(tail);
    HostlessHost(h, port, TrimEnd(tail));
    BareHost(h);
    if port != "" && HostlessScheme(h) {
      SchemeNamedHost(h);
    } else if FindScheme(s).None? {
      PlainPage(h, port, TrimEnd(tail));
    } else {
      SameHostSameAnswer(EmbeddedHost(s), h);
    }
  }

  /** What the embedded host is: where a page is put together from its parts, that of the URL in it. */
  lemma EmbeddedHostIs(page: string, user: string, h: string, port: string, tail: string)
    requires FindScheme(page).None? && UserInfo(user) && AuthorityHost(h) && Port(port) && Tail(tail)
    ensures EmbeddedHost(page + "://" + user + h + port + tail) == h
  {
    hide HostPart, AfterLastAt, FindScheme, AfterScheme, AuthorityHost, UserInfo, Port;
    var authority := user + h + port;
    assert page + "://" + user + h + port + tail == page + "://" + (authority + tail);
    SchemeFound(page, authority + tail);
    AuthorityHasNoDelimiter(user, h, port);
    BeforeConcat(authority, tail, "/?#");
    assert Before(tail, "/?#") == "" && authority + "" == authority;
    UserDropped(user, h + port);
    assert authority == user + (h + port);
    HostPartIs(h, port);
  }

  /** In particular a page without a port and without a colon is its own site. */
  lemma PageWithoutColon(h: string, tail: string)
    requires AuthorityHost(h) && h != "" && Tail(tail) && Without(h, ":") && Without(tail, ":")
    ensures NormalizeHost(h + tail) == NormalizeHost(h)
  {
    TrimEndIsPrefix(tail);
    NoColonNoScheme(h + TrimEnd(tail));
    hide NormalizeHost, FindScheme, AuthorityHost, Tail, TrimEnd;
    assert h + "" == h;
    SchemelessExactly(h, "", tail);
  }

  lemma PageWithUrl(page: string, i: nat, h: string)
    requires i < |page| && page[i] == '/' && !IsWhitespace(page[0]) && Without(page, ":") && AuthorityHost(h)
    ensures NormalizeHost(page + "://" + h) == NormalizeHost(h)
  {
    hide NormalizeHost, AuthorityHost, HostlessScheme, Before, FindScheme;
    SlashIsNoScheme(page);
    NoColonNoScheme(page);
    BeforeAll(page, ":");
    EmbeddedUrlWins(page, "", h, "", "");
    assert page + "://" + "" + h + "" + "" == page + "://" + h;
  }

  /** A login page is its own site; a redirection is taken for its target. */
  lemma SchemelessPages()
    ensures NormalizeHost("a.com/login") == Some("a.com")
    ensures NormalizeHost("a.com/?u=https://b.com") == Some("b.com")
  {
    hide NormalizeHost, AuthorityHost, Tail;
    CleanHost("a.com");
    CleanHost("b.com");
    TailOf("/login");
    PageWithoutColon("a.com", "/login");
    assert "a.com" + "/login" == "a.com/login";
    PageWithUrl("a.com/?u=https", 5, "b.com");
    assert "a.com/?u=https" + "://" + "b.com" == "a.com/?u=https://b.com";
  }

  lemma TailOf(tail: string)
    requires tail != "" && tail[0] == '/'
    ensures Tail(tail)
  {
  }

  lemma {:induction false} NoColonNoScheme(s: string)
    requires Without(s, ":")
    ensures FindScheme(s) == None
    decreases |s|
  {
    if |s| >= 3 {
      assert s[..3][0] == s[0] != ':';
      NoColonNoScheme(s[1..]);
    }
  }

  lemma CleanHost(h: string)
    requires |h| == 5 && IsLower(h[0]) && h[1..] == ".com"
    ensures AuthorityHost(h) && NormalizeHost(h) == Some(h)
  {
    DotComLetters(h);
    hide Comparable, TrimDots, ToLower, NormalizeHost;
    BareHost(h);
    NoDotsToTrim(h);
    LowerStays(h);
    ComparableClean(h);
  }

  lemma DotComLetters(h: string)
    requires |h| == 5 && IsLower(h[0]) && h[1..] == ".com"
    ensures AuthorityHost(h) && h[4] == 'm' && !("www." <= h) && forall i | 0 <= i < 5 :: !IsUpper(h[i])
  {
    assert h[1] == '.' && h[2] == 'c' && h[3] == 'o' && h[4] == 'm' by {
      assert forall i | 1 <= i < 5 :: h[i] == h[1..][i - 1];
    }
  }

  lemma ComparableClean(h: string)
    requires h != "" && TrimDots(h) == h && ToLower(h) == h && !("www." <= h) && IsAlphanumeric(h[0])
    ensures Comparable(h) == Some(h)
  {
  }

  lemma SlashIsNoScheme(s: string)
    requires '/' in s
    ensures !HostlessScheme(s)
  {
    forall k | 0 <= k < |HOSTLESS_SCHEMES| ensures !EqIgnoreAsciiCase(s, HOSTLESS_SCHEMES[k]) {
      var i :| 0 <= i < |s| && s[i] == '/';
      assert ToLower(s)[i] == '/';
      NoSlash(HOSTLESS_SCHEMES[k]);
    }
  }

  lemma NoSlash(scheme: string)
    requires scheme in HOSTLESS_SCHEMES
    ensures forall j | 0 <= j < |scheme| :: LowerChar(scheme[j]) != '/'
  {
  }

  lemma TailStaysTail(tail: string)
    requires Tail(tail)
    ensures Tail(TrimEnd(tail))
  {
    TrimEndIsPrefix(tail);
  }

  lemma UserDropped(user: string, hostPort: string)
    requires UserInfo(user) && Without(hostPort, "@")
    ensures AfterLastAt(user + hostPort) == hostPort
  {
    if user == "" {
      AfterLastAtIs("", hostPort);
      assert user + hostPort == hostPort;
    } else {
      AfterLastAtIs(user[..|user| - 1], hostPort);
      assert user + hostPort == user[..|user| - 1] + "@" + hostPort;
    }
  }

  /** A page of a scheme that never names a host has no host, in any case of its letters and with any
      whitespace around it. */
  lemma HostlessPages(page: string, scheme: string, rest: string)
    requires Without(scheme, ":") && HostlessScheme(scheme)
    ensures Trim(page) == scheme + ":" + rest ==> NormalizeHost(page) == None
  {
    hide HostlessScheme, Comparable, HostPart, AfterScheme, AfterLastAt, Trim;
    BeforeConcat(scheme, ":" + rest, ":");
    assert scheme + ":" + rest == scheme + (":" + rest);
    assert (scheme + ":" + rest)[|scheme|] == ':';
    assert Before(":" + rest, ":") == "" && scheme + "" == scheme;
  }

  // ---- The shape of results ----------------------------------------------------------------------

  ghost predicate HostShaped(h: string) {
    && h != "" && HasAlphanumeric(h) && Without(h, "/?#@")
    && (forall i | 0 <= i < |h| :: !IsUpper(h[i]))
    && h[|h| - 1] != '.'
  }

  lemma HostPartShape(hp: string)
    ensures HostPart(hp) <= hp
    ensures (hp == "" || hp[0] != '[') ==> Without(HostPart(hp), ":")
  {
    BeforeStops(hp, "]");
    BeforeStops(hp, ":");
    if hp != "" && hp[0] == '[' && ']' in hp {
      var b := Before(hp, "]");
      assert |b| < |hp| by {
        if |b| == |hp| {
          assert b == hp;
        }
      }
      assert hp[..|b| + 1] == b + "]";
    }
  }

  lemma ComparableShape(host: string)
    requires Comparable(host).Some? && Without(host, "/?#@")
    ensures HostShaped(Comparable(host).value) && |Comparable(host).value| <= |host|
  {
    hide TrimDots, HasAlphanumeric, ToLower, LowerChar, IsUpper, Without;
    TrimDotsIsPrefix(host);
    var d := TrimDots(host);
    PrefixWithout(d, host, "/?#@");
    LowerShape(d);
    StripShape(ToLower(d));
  }

  /** The end of the pipeline that loses nothing. */
  lemma ComparableKeeps(host: string)
    requires Comparable(host).Some? && |Comparable(host).value| >= |host|
    ensures !("www." <= ToLower(host)) && |Comparable(host).value| == |host|
  {
    hide HasAlphanumeric, ToLower;
    TrimDotsIsPrefix(host);
    var d := TrimDots(host);
    assert |StripWww(ToLower(d))| <= |d| <= |host|;
    assert d == host;
  }

  lemma PrefixWithout(s: string, t: string, chars: string)
    requires s <= t && Without(t, chars)
    ensures Without(s, chars)
  {
    assert forall i | 0 <= i < |s| :: s[i] == t[i];
  }

  lemma StripShape(l: string)
    requires Without(l, "/?#@") && (forall i | 0 <= i < |l| :: !IsUpper(l[i])) && (l != "" ==> l[|l| - 1] != '.')
    ensures var h := StripWww(l);
            && Without(h, "/?#@") && (forall i | 0 <= i < |h| :: !IsUpper(h[i])) && (h != "" ==> h[|h| - 1] != '.')
            && |h| <= |l| && (|h| == |l| ==> h == l && !("www." <= l))
  {
    hide IsUpper;
    var h := StripWww(l);
    var cut := |l| - |h|;
    assert h == l[cut..];
    assert forall i | 0 <= i < |h| :: h[i] == l[cut + i];
  }

  lemma LowerShape(d: string)
    requires Without(d, "/?#@")
    ensures Without(ToLower(d), "/?#@") && forall i | 0 <= i < |d| :: !IsUpper(ToLower(d)[i])
    ensures d != "" && d[|d| - 1] != '.' ==> ToLower(d)[|d| - 1] != '.'
  {
    forall i | 0 <= i < |d| ensures ToLower(d)[i] !in "/?#@" && !IsUpper(ToLower(d)[i]) {
      LowerKeepsDelimiters(d[i]);
    }
    if d != "" {
      LowerKeepsDelimiters(d[|d| - 1]);
    }
  }

  lemma LowerKeepsDelimiters(c: char)
    ensures !IsUpper(LowerChar(c))
    ensures c !in "/?#@" ==> LowerChar(c) !in "/?#@"
    ensures c != '.' ==> LowerChar(c) != '.'
  {
  }

  /** Every host returned has no delimiter and no ASCII capital, has a letter or a digit, and does not
      end in a dot. */
  lemma ResultsAreHosts(input: string)
    ensures NormalizeHost(input).Some? ==> HostShaped(NormalizeHost(input).value)
    ensures NormalizeHost(input).Some? && NormalizeHost(input).value[0] != '[' ==> Without(NormalizeHost(input).value, ":")
  {
    if NormalizeHost(input).Some? {
      var s := Trim(input);
      var authority := Before(AfterScheme(s), "/?#");
      BeforeStops(AfterScheme(s), "/?#");
      AfterLastAtIsSuffix(authority);
      var hp := AfterLastAt(authority);
      var cut := |authority| - |hp|;
      assert forall i | 0 <= i < |hp| :: hp[i] == authority[cut + i];
      HostPartShape(hp);
      assert forall i | 0 <= i < |HostPart(hp)| :: HostPart(hp)[i] == hp[i];
      ComparableShape(HostPart(hp));
      ColonsOnlyInBrackets(HostPart(hp));
    }
  }

  lemma ColonsOnlyInBrackets(host: string)
    requires Comparable(host).Some? && Without(host, "/?#@")
    ensures Comparable(host).value != ""
    ensures (host != "" && host[0] == '[') || Without(host, ":")
       ==> Comparable(host).value[0] == '[' || Without(Comparable(host).value, ":")
  {
    hide TrimDots, HasAlphanumeric;
    TrimDotsIsPrefix(host);
    var d := TrimDots(host);
    var l := ToLower(d);
    var h := StripWww(l);
    assert h == l[|l| - |h|..];
    if host[0] == '[' {
      assert l[0] == '[';
    } else if Without(host, ":") {
      forall i | 0 <= i < |h| ensures h[i] !in ":" {
        assert h[i] == LowerChar(host[|l| - |h| + i]) && host[|l| - |h| + i] !in ":";
      }
    }
  }

  lemma {:induction false} DotsTrimmed(s: string, dots: string)
    requires s != "" && s[|s| - 1] != '.' && forall i | 0 <= i < |dots| :: dots[i] == '.'
    ensures TrimDots(s + dots) == s
    decreases |dots|
  {
    if dots == "" {
      assert s + dots == s;
    } else {
      var n := |dots| - 1;
      assert (s + dots)[..|s| + n] == s + dots[..n];
      DotsTrimmed(s, dots[..n]);
    }
  }

  /** The one answer for a host in all its spellings: in any letter case, with or without `www.`, with any
      trailing dots, inside any URL, the host itself is returned. */
  lemma SpellingsOfAHost(scheme: string, user: string, spelling: string, dots: string, port: string, tail: string, h: string)
    requires PlainScheme(scheme) && UserInfo(user) && Port(port) && Tail(tail)
    requires AuthorityHost(spelling + dots) && forall i | 0 <= i < |dots| :: dots[i] == '.'
    requires HostShaped(h) && !("www." <= h)
    requires ToLower(spelling) == h || ToLower(spelling) == "www." + h
    ensures NormalizeHost(scheme + "://" + user + (spelling + dots) + port + tail) == Some(h)
  {
    hide NormalizeHost, AuthorityHost, PlainScheme, UserInfo, Port, Tail;
    AssembledUrl(scheme, user, spelling + dots, port, tail);
    BareHost(spelling + dots);
    LastLetter(spelling, h);
    DotsTrimmed(spelling, dots);
    assert ("www." + h)[4..] == h;
  }

  lemma LastLetter(spelling: string, h: string)
    requires h != "" && h[|h| - 1] != '.' && (ToLower(spelling) == h || ToLower(spelling) == "www." + h)
    ensures spelling != "" && spelling[|spelling| - 1] != '.'
  {
    assert ToLower(spelling)[|spelling| - 1] == h[|h| - 1];
  }

  /** Whether normalising a result again would leave it alone: no whitespace at its ends, no further
      `www.`, and nothing after a closing bracket. */
  predicate Settled(h: string) {
    && Trim(h) == h
    && !("www." <= h)
    && (h != "" && h[0] == '[' && ']' in h ==> Before(h, "]") + "]" == h)
  }

  lemma StagesOnlyShrink(s: string)
    requires HostOf(s).Some? && |HostOf(s).value| >= |s|
    ensures HostPart(s) == s && !("www." <= ToLower(s)) && |HostOf(s).value| == |s|
  {
    hide Hostless, Comparable, HostPart, Before, AfterLastAt, HostShaped, ToLower;
    var a := AfterScheme(s);
    var b := Before(a, "/?#");
    var hp := AfterLastAt(b);
    BeforeStops(a, "/?#");
    AfterLastAtIsSuffix(b);
    HostPartShape(hp);
    var host := HostPart(hp);
    assert Without(host, "/?#@") by {
      assert forall i | 0 <= i < |host| :: host[i] == hp[i] == b[|b| - |hp| + i];
    }
    ComparableShape(host);
    ComparableKeeps(host);
    assert |host| == |hp| == |b| == |a| == |s|;
    assert host == hp == b == a == s;
  }

  lemma SettledHostStays(h: string)
    requires HostShaped(h) && Settled(h) && (h[0] == '[' || Without(h, ":"))
    ensures NormalizeHost(h) == Some(h)
  {
    hide HostlessScheme, Before, AfterLastAt, FindScheme, Trim, HasAlphanumeric, ToLower, TrimDots, AfterScheme;
    if h[0] == '[' && ':' in h {
      BeforeStops(h, ":");
      StartsWithBracket(h);
    }
    NoSchemeFound(h);
    BeforeAll(h, "/?#");
    AfterLastAtIs("", h);
    if h[0] != '[' {
      BeforeAll(h, ":");
    }
    assert HostPart(h) == h;
    LowerStays(h);
    NoDotsToTrim(h);
  }

  lemma StartsWithBracket(h: string)
    requires h != "" && h[0] == '['
    ensures !HostlessScheme(Before(h, ":"))
  {
    BracketIsNoScheme(Before(h, ":"));
  }

  lemma LowerStays(h: string)
    requires forall i | 0 <= i < |h| :: !IsUpper(h[i])
    ensures ToLower(h) == h
  {
  }

  lemma NoDotsToTrim(h: string)
    requires h != "" && h[|h| - 1] != '.'
    ensures TrimDots(h) == h
  {
  }

  /** Normalising is not idempotent; a result is a fixed point exactly when it is settled. */
  lemma NormalisingTwice(input: string)
    ensures var r := NormalizeHost(input); r.Some? ==> (NormalizeHost(r.value) == r <==> Settled(r.value))
  {
    hide HostOf, HostPart, TrimStart, TrimEnd, ToLower, HasAlphanumeric;
    ResultsAreHosts(input);
    if NormalizeHost(input).Some? {
      var h := NormalizeHost(input).value;
      if Settled(h) {
        SettledHostStays(h);
      }
      if NormalizeHost(h) == Some(h) {
        TrimShortens(h);
        StagesOnlyShrink(Trim(h));
        LowerStays(h);
        BracketsClose(h);
      }
    }
  }

  lemma BracketsClose(h: string)
    requires HostPart(h) == h
    ensures h != "" && h[0] == '[' && ']' in h ==> Before(h, "]") + "]" == h
  {
  }

  /** One leading `www.` is dropped, not two. */
  lemma SecondWwwStays()
    ensures NormalizeHost("www.www.x") == Some("www.x") && NormalizeHost("www.x") == Some("x")
  {
    hide NormalizeHost;
    WwwDropped("www.x");
    WwwDropped("x");
    assert "www." + "www.x" == "www.www.x" && "www." + "x" == "www.x";
  }

  lemma WwwDropped(site: string)
    requires site != "" && IsLower(site[0]) && IsLower(site[|site| - 1])
    requires forall i | 0 <= i < |site| :: IsLower(site[i]) || site[i] == '.'
    ensures NormalizeHost("www." + site) == Some(site)
  {
    hide NormalizeHost, TrimDots, ToLower;
    var h := "www." + site;
    assert h[4..] == site;
    assert h[|h| - 1] == site[|site| - 1];
    BareHost(h);
    LowerStays(h);
    NoDotsToTrim(h);
    assert IsAlphanumeric(site[0]);
  }

  // ---- Matching ----------------------------------------------------------------------------------

  /** Worst to best. */
  datatype DomainMatch = NoMatch | RegistrableDomain | ParentDomain | Exact

  predicate EndsWith(s: string, end: string) {
    |end| <= |s| && s[|s| - |end|..] == end
  }

  /** `reg` is the registrable domain of a host, by the public suffix list. */
  function Classify(reg: string -> Option<string>, secret: string, current: string): DomainMatch {
    if secret == current then Exact
    else if EndsWith(current, secret) && |current| > |secret| && current[|current| - |secret| - 1] == '.' then ParentDomain
    else
      match (reg(secret), reg(current))
      case (Some(a), Some(b)) => if a == b then RegistrableDomain else NoMatch
      case _ => NoMatch
  }

  function MatchDomain(reg: string -> Option<string>, secretDomain: string, host: string): DomainMatch {
    match (NormalizeHost(secretDomain), NormalizeHost(host))
    case (Some(secret), Some(current)) => Classify(reg, secret, current)
    case _ => NoMatch
  }

  /** The dot-separated labels. */
  function Labels(s: string): (r: seq<string>)
    ensures r != []
    decreases |s|
  {
    var head := Before(s, ".");
    if |head| == |s| then [s] else [head] + Labels(s[|head| + 1..])
  }

  function Join(labels: seq<string>): string
    requires labels != []
  {
    if |labels| == 1 then labels[0] else labels[0] + "." + Join(labels[1..])
  }

  ghost predicate ProperSuffix(a: seq<string>, b: seq<string>) {
    |a| < |b| && b[|b| - |a|..] == a
  }

  lemma {:induction false} LabelsConcat(a: string, b: string)
    ensures Labels(a + "." + b) == Labels(a) + Labels(b)
    decreases |a|
  {
    hide Before;
    var head := Before(a, ".");
    var all := a + "." + b;
    BeforeStops(a, ".");
    assert head == a[..|head|];
    var rest := a[|head|..] + "." + b;
    assert all == head + rest;
    BeforeConcat(head, rest, ".");
    DotFirst(rest);
    assert Before(all, ".") == head + "" == head;
    if |head| == |a| {
      assert head == a;
      assert all[|head| + 1..] == b;
      assert Labels(all) == [head] + Labels(all[|head| + 1..]);
      assert Labels(a) == [a];
    } else {
      assert all[|head| + 1..] == a[|head| + 1..] + "." + b;
      LabelsConcat(a[|head| + 1..], b);
      assert [head] + Labels(a[|head| + 1..]) + Labels(b) == [head] + (Labels(a[|head| + 1..]) + Labels(b));
    }
  }

  lemma DotFirst(s: string)
    requires s != "" && s[0] == '.'
    ensures Before(s, ".") == ""
  {
  }

  lemma {:induction false} JoinLabels(s: string)
    ensures Join(Labels(s)) == s
    decreases |s|
  {
    hide Before;
    var head := Before(s, ".");
    BeforeStops(s, ".");
    if |head| < |s| {
      JoinLabels(s[|head| + 1..]);
      assert s == head + "." + s[|head| + 1..];
    }
  }

  lemma {:induction false} JoinConcat(a: seq<string>, b: seq<string>)
    requires a != [] && b != []
    ensures Join(a + b) == Join(a) + "." + Join(b)
    decreases |a|
  {
    if |a| == 1 {
      assert (a + b)[1..] == b;
    } else {
      assert (a + b)[1..] == a[1..] + b;
      JoinConcat(a[1..], b);
      assert a[0] + "." + (Join(a[1..]) + "." + Join(b)) == a[0] + "." + Join(a[1..]) + "." + Join(b);
    }
  }

  /** The suffix test on characters, with its boundary check, is the suffix relation on labels. */
  lemma SuffixOfLabels(secret: string, current: string)
    ensures EndsWith(current, secret) && |current| > |secret| && current[|current| - |secret| - 1] == '.'
       <==> ProperSuffix(Labels(secret), Labels(current))
  {
    hide Labels, Join;
    if EndsWith(current, secret) && |current| > |secret| && current[|current| - |secret| - 1] == '.' {
      var p := current[..|current| - |secret| - 1];
      assert current == p + "." + secret;
      LabelsConcat(p, secret);
    }
    if ProperSuffix(Labels(secret), Labels(current)) {
      var all, part := Labels(current), Labels(secret);
      var front := all[..|all| - |part|];
      assert all == front + part;
      JoinConcat(front, part);
      JoinLabels(current);
      JoinLabels(secret);
    }
  }

  /** A parent match means exactly that the secret's labels are a proper suffix of the host's. */
  lemma ParentExactly(reg: string -> Option<string>, secretDomain: string, host: string)
    ensures MatchDomain(reg, secretDomain, host) == ParentDomain
       <==> var (s, h) := (NormalizeHost(secretDomain), NormalizeHost(host));
            s.Some? && h.Some? && ProperSuffix(Labels(s.value), Labels(h.value))
  {
    hide NormalizeHost, Labels;
    var s, h := NormalizeHost(secretDomain), NormalizeHost(host);
    if s.Some? && h.Some? {
      SuffixOfLabels(s.value, h.value);
    }
  }

  /** The grade of the match in all cases, for the two hosts after normalising: the same host, a parent by
      labels, another host of the same registrable domain, or none of these. */
  lemma MatchExactly(reg: string -> Option<string>, secretDomain: string, host: string)
    ensures var (s, h) := (NormalizeHost(secretDomain), NormalizeHost(host));
            var m := MatchDomain(reg, secretDomain, host);
            && (m == Exact <==> s.Some? && s == h)
            && (m == ParentDomain <==> s.Some? && h.Some? && ProperSuffix(Labels(s.value), Labels(h.value)))
            && (m == RegistrableDomain <==>
                  && s.Some? && h.Some? && s != h && !ProperSuffix(Labels(s.value), Labels(h.value))
                  && reg(s.value).Some? && reg(s.value) == reg(h.value))
  {
    hide NormalizeHost, Labels, ProperSuffix;
    ParentExactly(reg, secretDomain, host);
  }

  /** Two subdomains of one registrable domain, neither of which is the parent of the other. */
  lemma SiblingsMatch(reg: string -> Option<string>)
    requires reg("mail.google.com") == reg("drive.google.com") == Some("google.com")
    ensures MatchDomain(reg, "mail.google.com", "drive.google.com") == RegistrableDomain
  {
    hide NormalizeHost, Labels;
    LetteredSite("mail.google.com");
    LetteredSite("drive.google.com");
    assert "drive.google.com"[1] == 'r' && "mail.google.com"[0] == 'm';
    assert "drive.google.com"[|"drive.google.com"| - 15..][0] == 'r';
  }

  lemma LetteredSite(site: string)
    requires site != "" && IsLower(site[0]) && IsLower(site[|site| - 1]) && !("www." <= site)
    requires forall i | 0 <= i < |site| :: IsLower(site[i]) || site[i] == '.'
    ensures NormalizeHost(site) == Some(site)
  {
    hide NormalizeHost, TrimDots, ToLower;
    BareHost(site);
    LowerStays(site);
    NoDotsToTrim(site);
    assert IsAlphanumeric(site[0]);
  }

  /** The laws of the match: parents are transitive and one-way, equality is symmetric, and siblings see
      each other as siblings or as parent and child. */
  lemma MatchLaws(reg: string -> Option<string>, a: string, b: string, c: string)
    ensures MatchDomain(reg, a, b) == ParentDomain && MatchDomain(reg, b, c) == ParentDomain
        ==> MatchDomain(reg, a, c) == ParentDomain
    ensures MatchDomain(reg, a, b) == ParentDomain ==> MatchDomain(reg, b, a) in {NoMatch, RegistrableDomain}
    ensures MatchDomain(reg, a, b) == Exact <==> MatchDomain(reg, b, a) == Exact
    ensures MatchDomain(reg, a, b) == RegistrableDomain ==> MatchDomain(reg, b, a) in {RegistrableDomain, ParentDomain}
    ensures MatchDomain(reg, a, b) == NoMatch ==> MatchDomain(reg, b, a) in {NoMatch, ParentDomain}
  {
    hide MatchDomain;
    ParentIsTransitive(reg, a, b, c);
    BothWays(reg, a, b);
  }

  lemma ParentIsTransitive(reg: string -> Option<string>, a: string, b: string, c: string)
    ensures MatchDomain(reg, a, b) == ParentDomain && MatchDomain(reg, b, c) == ParentDomain
        ==> MatchDomain(reg, a, c) == ParentDomain
  {
    hide MatchDomain, NormalizeHost, Labels;
    ParentExactly(reg, a, b);
    ParentExactly(reg, b, c);
    ParentExactly(reg, a, c);
    if MatchDomain(reg, a, b) == ParentDomain && MatchDomain(reg, b, c) == ParentDomain {
      SuffixTransitive(Labels(NormalizeHost(a).value), Labels(NormalizeHost(b).value), Labels(NormalizeHost(c).value));
    }
  }

  lemma BothWays(reg: string -> Option<string>, a: string, b: string)
    ensures MatchDomain(reg, a, b) == ParentDomain ==> MatchDomain(reg, b, a) in {NoMatch, RegistrableDomain}
    ensures MatchDomain(reg, a, b) == Exact <==> MatchDomain(reg, b, a) == Exact
    ensures MatchDomain(reg, a, b) == RegistrableDomain ==> MatchDomain(reg, b, a) in {RegistrableDomain, ParentDomain}
    ensures MatchDomain(reg, a, b) == NoMatch ==> MatchDomain(reg, b, a) in {NoMatch, ParentDomain}
  {
    hide NormalizeHost, EndsWith;
  }

  lemma SuffixTransitive(a: seq<string>, b: seq<string>, c: seq<string>)
    requires ProperSuffix(a, b) && ProperSuffix(b, c)
    ensures ProperSuffix(a, c)
  {
    assert c[|c| - |a|..] == c[|c| - |b|..][|b| - |a|..];
  }

  /** The host matters only through its normal form: a page of a site matches like the site itself. */
  lemma PagesMatchLikeTheirSite(reg: string -> Option<string>, secretDomain: string,
                                scheme: string, user: string, h: string, port: string, tail: string)
    requires PlainScheme(scheme) && UserInfo(user) && AuthorityHost(h) && Port(port) && Tail(tail)
    ensures MatchDomain(reg, secretDomain, scheme + "://" + user + h + port + tail) == MatchDomain(reg, secretDomain, h)
  {
    AssembledUrl(scheme, user, h, port, tail);
  }
}
