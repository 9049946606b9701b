/** What the daemon delivers (`daemon.rs`): the list on the hotkey, a secret to be typed, edited or stored,
    and what the popup shows of it, from every idle daemon whose vault is unlocked. */
module Journeys {
  import opened Common
  import opened Symbolic
  import opened Keys
  import opened Model
  import opened Db
  import opened Messages
  import opened SharedState
  import opened Protocol
  import opened DaemonRuns
  import Editors
  import Envelope
  import Fuzzy
  import Gestures
  import Popups
  import ProtocolSafety
  import Sessions
  import StableSort
  import VaultRuns
  import VaultSafety

  // ---- The vault while it is unlocked ------------------------------------------------------------

  /** A vault in order that is unlocked at this instant, with the time to stay so. */
  ghost predicate Open(v: Sessions.State, g: VaultRuns.Ideal, now: int) {
    VaultRuns.Inv(v, g) && Sessions.Observe(v, now).Unlocked? && v.timeout > 0
  }

  lemma OpenStays(v: Sessions.State, g: VaultRuns.Ideal, now: int)
    requires Open(v, g, now)
    ensures Sessions.Tick(v, now) == (v, Sessions.Observe(v, now)) && ForUi(Sessions.Observe(v, now)).UiUnlocked?
  {
  }

  lemma OpenRenews(v: Sessions.State, g: VaultRuns.Ideal, now: int) returns (g': VaultRuns.Ideal)
    requires Open(v, g, now)
    ensures Open(Sessions.Touch(v, now), g', now) && g'.contents == g.contents && Sessions.Touch(v, now).tables == v.tables
  {
    hide VaultRuns.MetaTableMatches, VaultRuns.EnrollmentsStored, VaultRuns.RowsMatch;
    VaultRuns.MemoryRefines(v, g, VaultRuns.TouchOp(now));
    g' := VaultRuns.Renew(g, now);
  }

  lemma OpenReads(v: Sessions.State, g: VaultRuns.Ideal, now: int, id: Uuid)
    requires Open(v, g, now) && id in g.contents
    ensures Sessions.MetaFor(v, id, now) == (v, Ok(g.contents[id].meta))
    ensures Sessions.OpenSecret(v, id, Sessions.Clock(now, now)) == (Sessions.Touch(v, now), Ok(g.contents[id].payload))
  {
    hide VaultRuns.Inv, Sessions.Observe, Sessions.Touch;
    OpenStays(v, g, now);
    VaultSafety.ReadsContents(v, g, id, Sessions.Clock(now, now));
  }

  /** The list holds the metadata of all that is stored, ordered by name. */
  ghost predicate ListsAllOf(metas: seq<SecretMeta>, g: VaultRuns.Ideal, order: seq<Bytes>, lower: string -> string) {
    && (forall i | 0 <= i < |order| :: order[i] in g.contents)
    && multiset(metas) == multiset(VaultRuns.MetasOf(g.contents, order))
    && |order| == |g.contents|
    && StableSort.Ordered(metas, Sessions.ByName(lower))
  }

  lemma OpenLists(v: Sessions.State, g: VaultRuns.Ideal, e: Env, now: int) returns (metas: seq<SecretMeta>)
    requires Open(v, g, now) && RowOrder(v.tables, e.order)
    ensures Sessions.ListSecrets(v, e.order, e.lower, now) == (v, Ok(metas)) && ListsAllOf(metas, g, e.order, e.lower)
  {
    hide VaultRuns.Inv, Sessions.Observe, Sessions.ListSecrets, StableSort.Ordered;
    StaysUnlocked(v, Now(e, now));
    VaultSafety.ListIsEverythingByName(v, g, e.order, e.lower, now);
    metas := Sessions.ListSecrets(v, e.order, e.lower, now).1.value;
  }

  function Stored(v: Sessions.State, meta: SecretMeta, payload: SecretPayload, isUpdate: bool, e: Env): (Sessions.State, Result<(), Sessions.SessionError>) {
    if isUpdate then Sessions.Update(v, meta, payload, e.rand, e.clock) else Sessions.Add(v, meta, payload, e.rand, e.clock)
  }

  lemma OpenStores(v: Sessions.State, g: VaultRuns.Ideal, e: Env, now: int, meta: SecretMeta, payload: SecretPayload, isUpdate: bool)
    returns (g': VaultRuns.Ideal)
    requires Open(v, g, now) && (isUpdate <==> meta.id in g.contents)
    ensures var r := Stored(v, meta, payload, isUpdate, Now(e, now));
            && r.1.Ok? && Open(r.0, g', now) && r.0.tables.rows.Keys == v.tables.rows.Keys + {meta.id}
    ensures g'.contents == g.contents[meta.id := VaultRuns.Secret(meta, payload)]
  {
    hide VaultRuns.MetaTableMatches, VaultRuns.EnrollmentsStored, VaultRuns.Holds, Sessions.SealedRow;
    var clock := Sessions.Clock(now, now);
    var op := if isUpdate then VaultRuns.UpdateOp(meta, payload, e.rand, clock) else VaultRuns.AddOp(meta, payload, e.rand, clock);
    VaultRuns.StoreRefines(v, g, op);
    g' := VaultRuns.IdealStore(g, meta, payload, isUpdate, clock).0;
  }

  /** A query order for the rows after a secret was stored. */
  lemma OrderAfter(v: Sessions.State, order: seq<Bytes>, v': Sessions.State, id: Bytes) returns (order': seq<Bytes>)
    requires RowOrder(v.tables, order) && v'.tables.rows.Keys == v.tables.rows.Keys + {id}
    ensures RowOrder(v'.tables, order') && id in order'
  {
    assert forall k :: k in v'.tables.rows <==> k in v'.tables.rows.Keys;
    assert forall k :: k in v.tables.rows <==> k in v.tables.rows.Keys;
    assert id in v'.tables.rows;
    if id in v.tables.rows {
      order' := order;
    } else {
      order' := order + [id];
    }
  }

  // ---- The daemon while nothing is under way ---------------------------------------------------------

  /** The worker is idle, no assertion is under way, and everything sent has been taken. */
  predicate Quiet(s: State) {
    s.worker == Idle && !s.inFlight && s.holder == None
  }

  /** The hotkey on an unlocked vault sends the list of everything stored, for the site and application in
      front, and renews the window. */
  lemma HotkeySendsTheList(t: Popups.Tools, s: State, g: VaultRuns.Ideal, e: Env, now: int, host: Option<string>, application: Option<string>)
    returns (actions: seq<Action>, s': State, metas: seq<SecretMeta>)
    requires Quiet(s) && Open(s.session, g, now) && RowOrder(s.session.tables, e.order)
    ensures Leads(t, s, actions, s') && ListsAllOf(metas, g, e.order, e.lower)
    ensures s' == s.(session := Sessions.Touch(s.session, now),
                     events := s.events + [Show(metas, host, application), LockChanged(ForUi(Sessions.Observe(s.session, now)))])
  {
    hide Leads, RowOrder, Open, Sessions.ListSecrets, Sessions.Observe, ListsAllOf, ThreadStep, ThreadEnabled, UiStep, UiEnabled, TakeHead,
      Awaited;
    var w := WorkerRuns(Now(e, now));
    OpenStays(s.session, g, now);
    metas := OpenLists(s.session, g, e, now);
    var s1 := Apply(t, s, HotkeyPressed(host, application));
    var s2 := Apply(t, s1, w);
    var s3 := Apply(t, s2, w);
    assert s3 == s.(worker := Acting(ListAct(host, application)));
    var s4 := Apply(t, s3, w);
    assert s4 == s.(worker := ReadingFlag(HotkeyShown(true)), events := s.events + [Show(metas, host, application)]);
    var s5 := Apply(t, s4, w);
    var s6 := Apply(t, s5, w);
    assert s6 == s4.(worker := Acting(TouchAct), events := s4.events + [LockChanged(ForUi(Sessions.Observe(s.session, now)))]);
    s' := Apply(t, s6, w);
    assert s'.events == s.events + [Show(metas, host, application), LockChanged(ForUi(Sessions.Observe(s.session, now)))];
    hide Apply, Enabled;
    LeadsOne(t, s, HotkeyPressed(host, application));
    actions := [HotkeyPressed(host, application)];
    LeadsThen(t, s, actions, s1, w);
    LeadsThen(t, s, actions + [w], s2, w);
    LeadsThen(t, s, actions + [w] + [w], s3, w);
    LeadsThen(t, s, actions + [w] + [w] + [w], s4, w);
    LeadsThen(t, s, actions + [w] + [w] + [w] + [w], s5, w);
    LeadsThen(t, s, actions + [w] + [w] + [w] + [w] + [w], s6, w);
    actions := actions + [w] + [w] + [w] + [w] + [w] + [w];
  }

  /** The hotkey on an unlocked vault opens the popup on everything stored, ranked for the site and application
      in front. */
  lemma HotkeyShowsTheList(t: Popups.Tools, s: State, g: VaultRuns.Ideal, e: Env, now: int, host: Option<string>, application: Option<string>)
    returns (actions: seq<Action>, s': State, metas: seq<SecretMeta>)
    requires Quiet(s) && s.events == [] && Open(s.session, g, now) && RowOrder(s.session.tables, e.order)
    ensures Leads(t, s, actions, s') && ListsAllOf(metas, g, e.order, e.lower)
    ensures ShowsList(t, s'.ui, metas, Fuzzy.SearchContext(host, application)) && s'.ui.lockState.UiUnlocked?
    ensures Quiet(s') && s'.events == [] && s'.requests == s.requests && s'.session == Sessions.Touch(s.session, now)
  {
    hide Leads, RowOrder, Open, ListsAllOf, Sessions.Observe, Fuzzy.Rank;
    OpenStays(s.session, g, now);
    var s1;
    actions, s1, metas := HotkeySendsTheList(t, s, g, e, now, host, application);
    var s2 := Hears(t, s1);
    s' := Hears(t, s2);
    LeadsOn(t, s, actions, s1, [Hear(s1.events[0])], s2);
    actions := actions + [Hear(s1.events[0])];
    LeadsOn(t, s, actions, s2, [Hear(s2.events[0])], s');
    actions := actions + [Hear(s2.events[0])];
  }

  /** The hotkey on a locked vault, and the touch that it asks for, open the popup on everything stored, ranked
      for the site and application that were in front. */
  lemma HotkeyUnlocksAndShows(t: Popups.Tools, s: State, g: VaultRuns.Ideal, who: Authenticator, e: Env, now: int, host: Option<string>,
                              application: Option<string>)
    returns (actions: seq<Action>, s': State, g': VaultRuns.Ideal, metas: seq<SecretMeta>)
    requires Quiet(s) && s.events == [] && VaultRuns.Inv(s.session, g) && s.session.inner == None && s.session.timeout > 0
    requires RowOrder(s.session.tables, e.order) && Sessions.Unlock(s.session, who, now).1.Ok?
    ensures Leads(t, s, actions, s') && Quiet(s') && Open(s'.session, g', now) && g'.contents == g.contents
    ensures ShowsList(t, s'.ui, metas, Fuzzy.SearchContext(host, application)) && s'.ui.lockState.UiUnlocked?
    ensures ListsAllOf(metas, g, e.order, e.lower)
  {
    hide Leads, RowOrder, Sessions.Unlock, Sessions.Observe, VaultRuns.Inv, Fuzzy.Rank, Open, ListsAllOf;
    var v := Sessions.Unlock(s.session, who, now).0;
    g', metas := OpensByTouch(s.session, g, who, e, now);
    HotkeyStartsAnUnlock(t, s, e, host, application);
    var s1 := PendingFor(s, host, application);
    var unlocking, s2 := Succeeds(t, s1, |s.threads|, who, now);
    var listing, s3 := SendsTheList(t, s2, |s.threads|, Now(e, now), metas);
    var showing, s4 := ListIsShown(t, s3, host, application, metas, ForUi(Sessions.Observe(v, now)), e.message);
    s' := Hears(t, s4);
    var all := HotkeyOn(e, host, application);
    LeadsOn(t, s, all, s1, unlocking, s2);
    LeadsOn(t, s, all + unlocking, s2, listing, s3);
    LeadsOn(t, s, all + unlocking + listing, s3, showing, s4);
    actions := all + unlocking + listing + showing + [Hear(s4.events[0])];
    LeadsOn(t, s, all + unlocking + listing + showing, s4, [Hear(s4.events[0])], s');
  }

  /** The vault that an unlock leaves: open, with the same contents, of which a list can be made. */
  lemma OpensByTouch(v: Sessions.State, g: VaultRuns.Ideal, who: Authenticator, e: Env, now: int)
    returns (g': VaultRuns.Ideal, metas: seq<SecretMeta>)
    requires VaultRuns.Inv(v, g) && v.inner == None && v.timeout > 0
    requires RowOrder(v.tables, e.order) && Sessions.Unlock(v, who, now).1.Ok?
    ensures var v' := Sessions.Unlock(v, who, now).0;
            && Open(v', g', now) && g'.contents == g.contents && v'.tables == v.tables
            && ForUi(Sessions.Observe(v', now)).UiUnlocked?
            && Sessions.ListSecrets(v', e.order, e.lower, now).1 == Ok(metas)
    ensures ListsAllOf(metas, g, e.order, e.lower)
  {
    hide RowOrder, Sessions.Unlock, Sessions.Observe, VaultRuns.Inv, Sessions.ListSecrets, StableSort.Ordered;
    UnlockGives(v, g, who, now);
    UnlockKeepsInv(v, g, who, now);
    VaultSafety.FailedUnlockChangesNothing(v, who, now);
    g' := VaultRuns.IdealUnlock(g, who, now).0;
    metas := OpenLists(Sessions.Unlock(v, who, now).0, g', e, now);
    OpenStays(Sessions.Unlock(v, who, now).0, g', now);
  }

  // ---- A secret is used ---------------------------------------------------------------------------------

  function Chance(newId: Uuid, now: int): Popups.Chance {
    Popups.Chance(newId, now)
  }

  /** The popup shows this secret highlighted in the list of an unlocked vault. */
  predicate Highlighted(s: State, id: Uuid) {
    && s.ui.visible && s.ui.mode.ListMode? && s.ui.lockState.UiUnlocked? && Popups.Highlights(s.ui, id)
    && s.events == [] && s.requests == [] && s.confirmation == None
  }

  function Pressed(k: Popups.Keys, c: Popups.Chance): Action {
    UiActs(Popups.TickStep(k, c))
  }

  lemma Presses(t: Popups.Tools, s: State, k: Popups.Keys, c: Popups.Chance, p': Popups.State, m: UiRequest) returns (s': State)
    requires Popups.Tick(s.ui, k, c) == Popups.Stepped(p', [m]) && s.requests == []
    requires !p'.mode.ConfirmDelete? && s.confirmation == None && !m.PinResponse?
    ensures Leads(t, s, [Pressed(k, c)], s')
    ensures s' == s.(ui := p', requests := s'.requests) && |s'.requests| == 1 && s'.requests[0].request == m
  {
    hide Leads, Popups.Tick;
    s' := Apply(t, s, Pressed(k, c));
    ProtocolSafety.TagOfOne(s, [m]);
    assert s.log + [] == s.log && s'.requests == [] + Tag(s, [m]);
    hide Apply, Enabled;
    LeadsOne(t, s, Pressed(k, c));
  }

  /** Enter on a highlighted secret types its stored value, once the popup is told to go away; when the value
      cannot be delivered, that is reported and nothing is typed. */
  lemma EnterTypes(t: Popups.Tools, s: State, g: VaultRuns.Ideal, e: Env, now: int, id: Uuid)
    returns (actions: seq<Action>, s': State)
    requires Quiet(s) && Highlighted(s, id) && Open(s.session, g, now) && id in g.contents
    requires RowOrder(s.session.tables, e.order)
    ensures Leads(t, s, actions, s') && Quiet(s') && !s'.ui.visible
    ensures s'.typed == s.typed + (if e.delivered then [g.contents[id].payload.value] else [])
    ensures s'.events == [if e.delivered then Status(e.message) else Error(e.message)] && s'.session == Sessions.Touch(s.session, now)
  {
    hide Leads, RowOrder, Open, Sessions.OpenSecret, ThreadStep, ThreadEnabled, Popups.Tick, Fuzzy.Rank;
    var w := WorkerRuns(Now(e, now));
    OpenReads(s.session, g, now, id);
    Gestures.EnterActs(s.ui, Chance(Nil(), now));
    var s1 := Presses(t, s, Gestures.EnterKey(), Chance(Nil(), now), s.ui, Use(id));
    var s2, s3 := UseIsServed(t, s1, g, e, now, id);
    var s4 := HearsHide(t, s3);
    s' := Delivers(t, s4, Now(e, now));
    hide Apply, Enabled, Popups.Highlights;
    LeadsOn(t, s, [Pressed(Gestures.EnterKey(), Chance(Nil(), now))], s1, s2, s3);
    actions := [Pressed(Gestures.EnterKey(), Chance(Nil(), now))] + s2;
    LeadsOn(t, s, actions, s3, [Hear(Hide)], s4);
    LeadsOn(t, s, actions + [Hear(Hide)], s4, [w], s');
    actions := actions + [Hear(Hide)] + [w];
  }

  lemma Delivers(t: Popups.Tools, s: State, e: Env) returns (s': State)
    requires s.worker.Delivering? && RowOrder(s.session.tables, e.order)
    ensures Leads(t, s, [WorkerRuns(e)], s')
    ensures s' == s.(worker := Idle, typed := s.typed + (if e.delivered then [s.worker.value] else []),
                     events := s.events + [if e.delivered then Status(e.message) else Error(e.message)])
  {
    hide Leads, RowOrder, Perform, Awaited, Resolve, ThreadStep, ThreadEnabled, UiStep, UiEnabled, TakeHead;
    s' := Apply(t, s, WorkerRuns(e));
    hide Apply, Enabled;
    LeadsOne(t, s, WorkerRuns(e));
  }

  lemma UseIsServed(t: Popups.Tools, s: State, g: VaultRuns.Ideal, e: Env, now: int, id: Uuid)
    returns (actions: seq<Action>, s': State)
    requires Quiet(s) && s.requests != [] && s.requests[0].request == Use(id) && Open(s.session, g, now) && id in g.contents
    requires RowOrder(s.session.tables, e.order)
    ensures Leads(t, s, actions, s')
    ensures s' == s.(requests := s.requests[1..], session := Sessions.Touch(s.session, now), events := s.events + [Hide],
                     worker := Delivering(g.contents[id].payload.value))
  {
    hide Leads, RowOrder, Open, Sessions.OpenSecret, Sessions.MetaFor, Sessions.ListSecrets, Sessions.Add, Sessions.Update, Sessions.Delete,
      Sessions.Touch, Sessions.Lock, Sessions.Tick, ThreadStep, ThreadEnabled, UiStep, UiEnabled, Awaited, Resolve;
    var w := WorkerRuns(Now(e, now));
    OpenReads(s.session, g, now, id);
    var s1 := Apply(t, s, TakeRequest);
    assert s1 == s.(requests := s.requests[1..], worker := Acting(UseAct(id)));
    s' := Apply(t, s1, w);
    hide Apply, Enabled;
    LeadsOne(t, s, TakeRequest);
    LeadsThen(t, s, [TakeRequest], s1, w);
    actions := [TakeRequest] + [w];
  }

  lemma HearsHide(t: Popups.Tools, s: State) returns (s': State)
    requires s.events != [] && s.events[0] == Hide
    ensures Leads(t, s, [Hear(Hide)], s') && !s'.ui.visible
    ensures s' == s.(ui := s'.ui, events := s.events[1..], confirmation := s'.confirmation, requests := s'.requests)
  {
    hide Leads, Fuzzy.Rank;
    s' := Apply(t, s, Hear(Hide));
    assert s.log + [] == s.log;
    hide Apply, Enabled;
    LeadsOne(t, s, Hear(Hide));
  }

  // ---- A secret is edited -------------------------------------------------------------------------------

  /** A request to edit sends the stored metadata and payload of that secret. */
  lemma EditIsServed(t: Popups.Tools, s: State, g: VaultRuns.Ideal, e: Env, now: int, id: Uuid)
    returns (actions: seq<Action>, s': State)
    requires Quiet(s) && s.requests != [] && s.requests[0].request == BeginEdit(id) && Open(s.session, g, now) && id in g.contents
    requires RowOrder(s.session.tables, e.order)
    ensures Leads(t, s, actions, s')
    ensures s' == s.(requests := s.requests[1..], session := Sessions.Touch(s.session, now),
                     events := s.events + [EditReady(g.contents[id].meta, g.contents[id].payload)])
  {
    hide Leads, RowOrder, Open, Sessions.OpenSecret, Sessions.MetaFor, Sessions.Observe, ThreadStep, ThreadEnabled, UiStep, UiEnabled, Awaited;
    var w := WorkerRuns(Now(e, now));
    OpenStays(s.session, g, now);
    OpenReads(s.session, g, now, id);
    var s1 := Apply(t, s, TakeRequest);
    var s2 := Apply(t, s1, w);
    var s3 := Apply(t, s2, w);
    assert s3 == s1.(worker := Acting(EditAct(id)));
    s' := Apply(t, s3, w);
    hide Apply, Enabled;
    LeadsOne(t, s, TakeRequest);
    LeadsThen(t, s, [TakeRequest], s1, w);
    LeadsThen(t, s, [TakeRequest] + [w], s2, w);
    LeadsThen(t, s, [TakeRequest] + [w] + [w], s3, w);
    actions := [TakeRequest] + [w] + [w] + [w];
  }

  /** Ctrl+E on a highlighted secret opens the form of that secret as it is stored. */
  lemma CtrlEOpensTheForm(t: Popups.Tools, s: State, g: VaultRuns.Ideal, e: Env, now: int, id: Uuid)
    returns (actions: seq<Action>, s': State)
    requires Quiet(s) && Highlighted(s, id) && Open(s.session, g, now) && id in g.contents
    requires RowOrder(s.session.tables, e.order)
    ensures Leads(t, s, actions, s')
    ensures s' == s.(ui := s'.ui, session := Sessions.Touch(s.session, now)) && s'.ui.visible
    ensures s'.ui.mode == Popups.EditMode(Editors.FromExisting(t.text, g.contents[id].meta, g.contents[id].payload))
  {
    hide Leads, RowOrder, Open, Fuzzy.Rank, Popups.Tick, Editors.FromExisting;
    var c := Chance(Nil(), now);
    Gestures.ShortcutsAct(s.ui, c);
    var s1 := Presses(t, s, Gestures.CtrlE(), c, s.ui, BeginEdit(id));
    var serving, s2 := EditIsServed(t, s1, g, e, now, id);
    s' := Hears(t, s2);
    LeadsOn(t, s, [Pressed(Gestures.CtrlE(), c)], s1, serving, s2);
    actions := [Pressed(Gestures.CtrlE(), c)] + serving;
    LeadsOn(t, s, actions, s2, [Hear(s2.events[0])], s');
    actions := actions + [Hear(s2.events[0])];
  }

  // ---- A secret is stored ---------------------------------------------------------------------------------

  lemma ListsThis(metas: seq<SecretMeta>, g: VaultRuns.Ideal, order: seq<Bytes>, lower: string -> string, id: Uuid)
    requires ListsAllOf(metas, g, order, lower) && id in order
    ensures g.contents[id].meta in metas
  {
    hide StableSort.Ordered;
    var all := VaultRuns.MetasOf(g.contents, order);
    var k :| 0 <= k < |order| && order[k] == id;
    assert all[k] == g.contents[id].meta;
    assert g.contents[id].meta in multiset(all);
  }

  /** A request to save stores the secret, as a new one or in place of the one of its id, and sends the list
      that there is then. */
  lemma SaveIsServed(t: Popups.Tools, s: State, g: VaultRuns.Ideal, e: Env, now: int, meta: SecretMeta, payload: SecretPayload, isUpdate: bool)
    returns (actions: seq<Action>, s': State, g': VaultRuns.Ideal, metas: seq<SecretMeta>, order: seq<Bytes>)
    requires Quiet(s) && s.requests != [] && s.requests[0].request == Save(meta, payload, isUpdate) && Open(s.session, g, now)
    requires (isUpdate <==> meta.id in g.contents) && RowOrder(s.session.tables, e.order)
    ensures Leads(t, s, actions, s')
    ensures s' == s.(requests := s.requests[1..], session := s'.session, events := s.events + [Status(e.message), Refresh(metas)])
    ensures Open(s'.session, g', now) && g'.contents == g.contents[meta.id := VaultRuns.Secret(meta, payload)]
    ensures ListsAllOf(metas, g', order, e.lower) && meta in metas
  {
    hide Leads, RowOrder, Open, Sessions.Observe, Sessions.Add, Sessions.Update, Sessions.ListSecrets, ListsAllOf,
      ThreadStep, ThreadEnabled, UiStep, UiEnabled, Awaited, TakeHead, Resolve;
    var w := WorkerRuns(Now(e, now));
    g' := OpenStores(s.session, g, e, now, meta, payload, isUpdate);
    var v := Stored(s.session, meta, payload, isUpdate, Now(e, now)).0;
    order := OrderAfter(s.session, e.order, v, meta.id);
    metas := OpenLists(v, g', e.(order := order), now);
    ListsThis(metas, g', order, e.lower, meta.id);
    var w' := WorkerRuns(Now(e.(order := order), now));
    var s3 := SaveIsTaken(t, s, g, e, now, meta, payload, isUpdate);
    var s4 := SavesNow(t, s3, e, now, meta, payload, isUpdate);
    s' := Apply(t, s4, w');
    assert s'.events == s.events + [Status(e.message), Refresh(metas)];
    hide Apply, Enabled;
    LeadsOn(t, s, [TakeRequest] + [w] + [w], s3, [w], s4);
    LeadsThen(t, s, [TakeRequest] + [w] + [w] + [w], s4, w');
    actions := [TakeRequest] + [w] + [w] + [w] + [w'];
  }

  lemma SaveIsTaken(t: Popups.Tools, s: State, g: VaultRuns.Ideal, e: Env, now: int, meta: SecretMeta, payload: SecretPayload, isUpdate: bool)
    returns (s': State)
    requires Quiet(s) && s.requests != [] && s.requests[0].request == Save(meta, payload, isUpdate) && Open(s.session, g, now)
    requires RowOrder(s.session.tables, e.order)
    ensures Leads(t, s, [TakeRequest] + [WorkerRuns(Now(e, now))] + [WorkerRuns(Now(e, now))], s')
    ensures s' == s.(requests := s.requests[1..], worker := Acting(SaveAct(meta, payload, isUpdate)))
  {
    hide Leads, RowOrder, Open, Sessions.Observe, Perform, ThreadStep, ThreadEnabled, UiStep, UiEnabled, Awaited;
    var w := WorkerRuns(Now(e, now));
    OpenStays(s.session, g, now);
    var s1 := Apply(t, s, TakeRequest);
    var s2 := Apply(t, s1, w);
    s' := Apply(t, s2, w);
    hide Apply, Enabled;
    LeadsOne(t, s, TakeRequest);
    LeadsThen(t, s, [TakeRequest], s1, w);
    LeadsThen(t, s, [TakeRequest] + [w], s2, w);
  }

  lemma SavesNow(t: Popups.Tools, s: State, e: Env, now: int, meta: SecretMeta, payload: SecretPayload, isUpdate: bool) returns (s': State)
    requires s.worker == Acting(SaveAct(meta, payload, isUpdate)) && s.holder == None && RowOrder(s.session.tables, e.order)
    requires Stored(s.session, meta, payload, isUpdate, Now(e, now)).1.Ok?
    ensures Leads(t, s, [WorkerRuns(Now(e, now))], s')
    ensures s' == s.(session := Stored(s.session, meta, payload, isUpdate, Now(e, now)).0, worker := Acting(RefreshAct),
                     events := s.events + [Status(e.message)])
  {
    hide Leads, RowOrder, Sessions.Add, Sessions.Update;
    s' := Apply(t, s, WorkerRuns(Now(e, now)));
    hide Apply, Enabled;
    LeadsOne(t, s, WorkerRuns(Now(e, now)));
  }

  /** The popup shows this form. */
  predicate ShowsForm(s: State, editor: Editors.Editor) {
    && s.ui.visible && s.ui.mode == Popups.EditMode(editor) && s.events == [] && s.requests == [] && s.confirmation == None
  }

  /** The user fills in the form on screen and presses Ctrl+S: what is saved is what was built from it. */
  lemma FormIsSaved(t: Popups.Tools, s: State, editor: Editors.Editor, form: Editors.Form, newId: Uuid, now: int)
    returns (actions: seq<Action>, s': State)
    requires ShowsForm(s, editor) && Editors.Build(editor.(form := form), newId, now).Ok?
    ensures Leads(t, s, actions, s')
    ensures var (meta, payload) := Editors.Build(editor.(form := form), newId, now).value;
            && s' == s.(ui := s'.ui, requests := s'.requests) && s'.ui == s.ui.(mode := Popups.ListMode)
            && |s'.requests| == 1 && s'.requests[0].request == Save(meta, payload, editor.id.Some?)
  {
    hide Leads, Editors.Build, Popups.Tick;
    var c := Chance(newId, now);
    var frame := UiActs(Popups.EditFrame(form, false, false, c));
    var (meta, payload) := Editors.Build(editor.(form := form), newId, now).value;
    var s1 := Apply(t, s, frame);
    assert s.log + [] == s.log && Tag(s, []) == [] && s.requests + [] == s.requests;
    assert s1 == s.(ui := s.ui.(mode := Popups.EditMode(editor.(form := form))));
    Gestures.SavingSends(s1.ui, c);
    s' := Presses(t, s1, Gestures.CtrlS(), c, s1.ui.(mode := Popups.ListMode), Save(meta, payload, editor.id.Some?));
    hide Apply, Enabled;
    LeadsOne(t, s, frame);
    LeadsOn(t, s, [frame], s1, [Pressed(Gestures.CtrlS(), c)], s');
    actions := [frame] + [Pressed(Gestures.CtrlS(), c)];
  }

  /** The popup hears what a save sends, and holds the new list. */
  lemma RefreshIsHeard(t: Popups.Tools, s: State, message: string, metas: seq<SecretMeta>) returns (actions: seq<Action>, s': State)
    requires s.events == [Status(message), Refresh(metas)] && s.ui.mode.ListMode? && s.confirmation == None
    ensures Leads(t, s, actions, s') && s' == s.(ui := s'.ui, events := [])
    ensures s'.ui.secrets == metas && s'.ui.mode.ListMode? && s'.ui.visible == s.ui.visible
    ensures s'.ui.ranked == Fuzzy.Rank(t.searcher, metas, s.ui.query, s.ui.context)
  {
    hide Leads, Fuzzy.Rank;
    var s1 := Hears(t, s);
    s' := Hears(t, s1);
    LeadsOn(t, s, [Hear(s.events[0])], s1, [Hear(s1.events[0])], s');
    actions := [Hear(s.events[0])] + [Hear(s1.events[0])];
  }

  /** What the form stores, when it is accepted. */
  function Built(editor: Editors.Editor, form: Editors.Form, newId: Uuid, now: int): VaultRuns.Secret
    requires Editors.Build(editor.(form := form), newId, now).Ok?
  {
    var (meta, payload) := Editors.Build(editor.(form := form), newId, now).value;
    VaultRuns.Secret(meta, payload)
  }

  /** The secret is what stands in the fields of the form. */
  ghost predicate TypedAs(secret: VaultRuns.Secret, f: Editors.Form) {
    && secret.meta.name == f.name && secret.meta.secretType == f.secretType && secret.meta.username == f.username
    && secret.meta.domain == f.domain && secret.meta.application == f.application
    && f.tags == Editors.JoinTags(secret.meta.tags) && Editors.TidyTags(secret.meta.tags)
    && secret.payload.value == Editors.Encoded(f.value) && secret.payload.extra == []
    && secret.payload.notes == (if f.notes == "" then None else Some(Editors.Encoded(f.notes)))
  }

  lemma BuiltAsTyped(editor: Editors.Editor, form: Editors.Form, newId: Uuid, now: int)
    requires Editors.TidyForm(form)
    ensures Editors.Build(editor.(form := form), newId, now).Ok?
    ensures var secret := Built(editor, form, newId, now);
            && TypedAs(secret, form) && secret.meta.createdAt == editor.createdAt && secret.meta.updatedAt == now
            && secret.meta.id == if editor.id.Some? then editor.id.value else newId
  {
    hide Editors.Build, Editors.TidyForm, Editors.JoinTags, Editors.Encoded, Editors.TidyTags;
    Editors.StoredFieldByField(editor.(form := form), newId, now);
  }

  lemma BuiltFor(editor: Editors.Editor, form: Editors.Form, newId: Uuid, now: int)
    requires Editors.Build(editor.(form := form), newId, now).Ok?
    ensures Built(editor, form, newId, now).meta.id == if editor.id.Some? then editor.id.value else newId
  {
  }

  lemma SavedIsListed(t: Popups.Tools, s: State, g: VaultRuns.Ideal, e: Env, now: int, meta: SecretMeta, payload: SecretPayload, isUpdate: bool)
    returns (actions: seq<Action>, s': State, g': VaultRuns.Ideal)
    requires Quiet(s) && |s.requests| == 1 && s.requests[0].request == Save(meta, payload, isUpdate) && Open(s.session, g, now)
    requires (isUpdate <==> meta.id in g.contents) && RowOrder(s.session.tables, e.order)
    requires s.events == [] && s.ui.mode.ListMode? && s.ui.visible && s.confirmation == None
    ensures Leads(t, s, actions, s') && Quiet(s') && Open(s'.session, g', now)
    ensures g'.contents == g.contents[meta.id := VaultRuns.Secret(meta, payload)] && meta in s'.ui.secrets
    ensures s'.ui.mode.ListMode? && s'.ui.visible
    ensures exists order: seq<Bytes> :: ListsAllOf(s'.ui.secrets, g', order, e.lower)
  {
    hide Leads, RowOrder, Open, Fuzzy.Rank, ListsAllOf;
    var serving, s1, metas, order;
    serving, s1, g', metas, order := SaveIsServed(t, s, g, e, now, meta, payload, isUpdate);
    var hearing;
    hearing, s' := RefreshIsHeard(t, s1, e.message, metas);
    LeadsOn(t, s, serving, s1, hearing, s');
    actions := serving + hearing;
  }

  /** A form on screen, filled in so that it is accepted and saved with Ctrl+S, is stored: under the id of the
      secret that it is the form of, or a new one, and the popup lists it. */
  lemma FormIsStored(t: Popups.Tools, s: State, g: VaultRuns.Ideal, e: Env, now: int, editor: Editors.Editor, form: Editors.Form, newId: Uuid)
    returns (actions: seq<Action>, s': State, g': VaultRuns.Ideal)
    requires Quiet(s) && ShowsForm(s, editor) && Open(s.session, g, now) && RowOrder(s.session.tables, e.order)
    requires Editors.Build(editor.(form := form), newId, now).Ok?
    requires if editor.id.Some? then editor.id.value in g.contents else newId !in g.contents
    ensures Leads(t, s, actions, s') && Quiet(s') && Open(s'.session, g', now)
    ensures var secret := Built(editor, form, newId, now);
            g'.contents == g.contents[secret.meta.id := secret] && secret.meta in s'.ui.secrets
    ensures s'.ui.mode.ListMode? && s'.ui.visible
    ensures exists order: seq<Bytes> :: ListsAllOf(s'.ui.secrets, g', order, e.lower)
  {
    BuiltFor(editor, form, newId, now);
    hide Leads, RowOrder, Open, Fuzzy.Rank, ListsAllOf, Editors.Build;
    var secret := Built(editor, form, newId, now);
    var saving, s1 := FormIsSaved(t, s, editor, form, newId, now);
    hide Built;
    var rest;
    rest, s', g' := SavedIsListed(t, s1, g, e, now, secret.meta, secret.payload, editor.id.Some?);
    LeadsOn(t, s, saving, s1, rest, s');
    actions := saving + rest;
  }

  lemma Stays(t: Popups.Tools, s: State, k: Popups.Keys, c: Popups.Chance, p': Popups.State) returns (s': State)
    requires Popups.Tick(s.ui, k, c) == Popups.Stepped(p', []) && !p'.mode.ConfirmDelete? && s.confirmation == None
    ensures Leads(t, s, [Pressed(k, c)], s') && s' == s.(ui := p')
  {
    hide Leads, Popups.Tick;
    s' := Apply(t, s, Pressed(k, c));
    assert s.log + [] == s.log && Tag(s, []) == [] && s.requests + [] == s.requests;
    hide Apply, Enabled;
    LeadsOne(t, s, Pressed(k, c));
  }

  /** Ctrl+N, a tidy form and Ctrl+S: the new secret is stored, field by field as typed. */
  lemma NewSecretIsStored(t: Popups.Tools, s: State, g: VaultRuns.Ideal, e: Env, now: int, form: Editors.Form, newId: Uuid)
    returns (actions: seq<Action>, s': State, g': VaultRuns.Ideal, secret: VaultRuns.Secret)
    requires Quiet(s) && s.ui.visible && s.ui.mode.ListMode? && s.events == [] && s.requests == [] && s.confirmation == None
    requires Open(s.session, g, now) && RowOrder(s.session.tables, e.order) && newId !in g.contents && Editors.TidyForm(form)
    ensures Leads(t, s, actions, s') && Quiet(s') && Open(s'.session, g', now)
    ensures g'.contents == g.contents[newId := secret] && secret.meta in s'.ui.secrets
    ensures TypedAs(secret, form) && secret.meta.id == newId && secret.meta.createdAt == now && secret.meta.updatedAt == now
  {
    var editor := Editors.NewEditor(now);
    assert editor.id == None && editor.createdAt == now;
    hide Leads, RowOrder, Open, Popups.Tick, Editors.TidyForm, Editors.Build, Editors.NewEditor, TypedAs, ListsAllOf, Built;
    var c := Chance(newId, now);
    Gestures.ShortcutsAct(s.ui, c);
    BuiltAsTyped(editor, form, newId, now);
    secret := Built(editor, form, newId, now);
    var s1 := Stays(t, s, Gestures.CtrlN(), c, s.ui.(mode := Popups.EditMode(editor)));
    var rest;
    rest, s', g' := FormIsStored(t, s1, g, e, now, editor, form, newId);
    LeadsOn(t, s, [Pressed(Gestures.CtrlN(), c)], s1, rest, s');
    actions := [Pressed(Gestures.CtrlN(), c)] + rest;
  }

  /** Ctrl+E on a highlighted secret, another tidy form and Ctrl+S: the secret is replaced, field by field as
      typed, and keeps its id and its date of creation. */
  lemma EditedSecretIsStored(t: Popups.Tools, s: State, g: VaultRuns.Ideal, e: Env, now: int, id: Uuid, form: Editors.Form, newId: Uuid)
    returns (actions: seq<Action>, s': State, g': VaultRuns.Ideal, secret: VaultRuns.Secret)
    requires Quiet(s) && Highlighted(s, id) && Open(s.session, g, now) && RowOrder(s.session.tables, e.order)
    requires id in g.contents && Editors.TidyForm(form)
    ensures Leads(t, s, actions, s') && Quiet(s') && Open(s'.session, g', now)
    ensures g'.contents == g.contents[id := secret] && secret.meta in s'.ui.secrets
    ensures TypedAs(secret, form) && secret.meta.id == id
    ensures secret.meta.createdAt == g.contents[id].meta.createdAt && secret.meta.updatedAt == now
  {
    hide Leads, RowOrder, Open, Popups.Tick, Editors.TidyForm, Editors.Build, Editors.FromExisting, TypedAs, ListsAllOf, Built, Sessions.Touch,
      Popups.Highlights;
    StoredUnderItsId(s.session, g, now, id);
    var editor := Editors.FromExisting(t.text, g.contents[id].meta, g.contents[id].payload);
    ExistingForm(t.text, g.contents[id]);
    BuiltAsTyped(editor, form, newId, now);
    secret := Built(editor, form, newId, now);
    var opening, s1 := CtrlEOpensTheForm(t, s, g, e, now, id);
    var g1 := OpenRenews(s.session, g, now);
    var rest;
    rest, s', g' := FormIsStored(t, s1, g1, e, now, editor, form, newId);
    LeadsOn(t, s, opening, s1, rest, s');
    actions := opening + rest;
  }

  lemma ExistingForm(text: Bytes -> Option<string>, secret: VaultRuns.Secret)
    ensures var editor := Editors.FromExisting(text, secret.meta, secret.payload);
            editor.id == Some(secret.meta.id) && editor.createdAt == secret.meta.createdAt
  {
  }

  lemma StoredUnderItsId(v: Sessions.State, g: VaultRuns.Ideal, now: int, id: Bytes)
    requires Open(v, g, now) && id in g.contents
    ensures g.contents[id].meta.id == id
  {
    hide Sessions.Observe;
    IdOf(v, g, id);
  }

  // ---- Locking and unlocking --------------------------------------------------------------------------------

  /** Enter in the list of a locked vault starts one unlock, and the popup is told to wait. */
  lemma EnterStartsAnUnlock(t: Popups.Tools, s: State, e: Env, id: Uuid) returns (actions: seq<Action>, s': State)
    requires Quiet(s) && s.ui.visible && s.ui.mode.ListMode? && s.ui.lockState.UiLocked? && Popups.Highlights(s.ui, id)
    requires s.requests == [] && s.confirmation == None && RowOrder(s.session.tables, e.order)
    ensures Leads(t, s, actions, s')
    ensures s' == s.(inFlight := true, threads := s.threads + [Thread(true, |s.log| + 1, Wanting)],
                     events := s.events + [LockChanged(WaitingForTouch)], log := s.log + [UnlockClaimed])
  {
    hide Leads, RowOrder, Popups.Tick, Perform, Resolve, Awaited, ThreadStep, ThreadEnabled, UiStep, UiEnabled;
    var c, w := Chance(Nil(), 0), WorkerRuns(e);
    Gestures.EnterActs(s.ui, c);
    var s1 := Presses(t, s, Gestures.EnterKey(), c, s.ui, UnlockRequest);
    var s2 := Apply(t, s1, TakeRequest);
    assert s2 == s.(worker := Claiming);
    var s3 := Apply(t, s2, w);
    s' := Apply(t, s3, w);
    hide Apply, Enabled;
    actions := [Pressed(Gestures.EnterKey(), c)];
    LeadsThen(t, s, actions, s1, TakeRequest);
    LeadsThen(t, s, actions + [TakeRequest], s2, w);
    LeadsThen(t, s, actions + [TakeRequest] + [w], s3, w);
    actions := actions + [TakeRequest] + [w] + [w];
  }

  /** The ticker acts on an expired deadline: the session is locked exactly when its time is over, and the
      popup is told when that changes what it last heard, or how much time is left. */
  lemma TickerLocks(t: Popups.Tools, s: State, e: Env, now: int) returns (actions: seq<Action>, s': State)
    requires Quiet(s) && RowOrder(s.session.tables, e.order)
    ensures Leads(t, s, actions, s')
    ensures var state := ForUi(Sessions.Observe(s.session, now));
            && s' == s.(session := s'.session, lastState := state,
                        events := s.events + if state != s.lastState || state.UiUnlocked? then [LockChanged(state)] else [])
            && (state.UiUnlocked? ==> s'.session == s.session)
            && (state.UiLocked? ==> s'.session.inner == None && s'.session.tables == s.session.tables)
  {
    hide Leads, RowOrder, Perform, Awaited, ThreadStep, ThreadEnabled, UiStep, UiEnabled, TakeHead;
    var w := WorkerRuns(Now(e, now));
    var s1 := Apply(t, s, TickerFires);
    var s2 := Apply(t, s1, w);
    s' := Apply(t, s2, w);
    hide Apply, Enabled;
    LeadsOne(t, s, TickerFires);
    LeadsThen(t, s, [TickerFires], s1, w);
    LeadsThen(t, s, [TickerFires] + [w], s2, w);
    actions := [TickerFires] + [w] + [w];
  }

  /** While an unlock is under way the ticker leaves the session alone and says so. */
  lemma TickerWaits(t: Popups.Tools, s: State, e: Env) returns (actions: seq<Action>, s': State)
    requires s.worker == Idle && s.inFlight && RowOrder(s.session.tables, e.order)
    ensures Leads(t, s, actions, s')
    ensures s' == s.(lastState := WaitingForTouch,
                     events := s.events + if s.lastState != WaitingForTouch then [LockChanged(WaitingForTouch)] else [])
  {
    hide Leads, RowOrder, Perform, Awaited, ThreadStep, ThreadEnabled, UiStep, UiEnabled, TakeHead;
    var s1 := Apply(t, s, TickerFires);
    s' := Apply(t, s1, WorkerRuns(e));
    hide Apply, Enabled;
    LeadsOne(t, s, TickerFires);
    LeadsThen(t, s, [TickerFires], s1, WorkerRuns(e));
    actions := [TickerFires] + [WorkerRuns(e)];
  }

  /** While an unlock is under way the hotkey opens an empty popup that waits, and starts no other unlock. */
  lemma HotkeyWaits(t: Popups.Tools, s: State, e: Env, host: Option<string>, application: Option<string>)
    returns (actions: seq<Action>, s': State)
    requires s.worker == Idle && s.inFlight && RowOrder(s.session.tables, e.order)
    ensures Leads(t, s, actions, s')
    ensures s' == s.(events := s.events + [Show([], host, application), LockChanged(WaitingForTouch)])
  {
    hide Leads, RowOrder, Perform, Awaited, ThreadStep, ThreadEnabled, UiStep, UiEnabled, TakeHead;
    var w := WorkerRuns(e);
    var s1 := Apply(t, s, HotkeyPressed(host, application));
    var s2 := Apply(t, s1, w);
    var s3 := Apply(t, s2, w);
    s' := Apply(t, s3, w);
    assert s'.events == s.events + [Show([], host, application), LockChanged(WaitingForTouch)];
    hide Apply, Enabled;
    LeadsOne(t, s, HotkeyPressed(host, application));
    actions := [HotkeyPressed(host, application)];
    LeadsThen(t, s, actions, s1, w);
    LeadsThen(t, s, actions + [w], s2, w);
    LeadsThen(t, s, actions + [w] + [w], s3, w);
    actions := actions + [w] + [w] + [w];
  }

  /** While an unlock is under way another request to unlock has no effect. */
  lemma UnlockWaits(t: Popups.Tools, s: State, e: Env) returns (actions: seq<Action>, s': State)
    requires s.worker == Idle && s.inFlight && s.requests != [] && s.requests[0].request == UnlockRequest
    requires RowOrder(s.session.tables, e.order)
    ensures Leads(t, s, actions, s') && s' == s.(requests := s.requests[1..])
  {
    hide Leads, RowOrder, Perform, Resolve, Awaited, ThreadStep, ThreadEnabled, UiStep, UiEnabled;
    var s1 := Apply(t, s, TakeRequest);
    s' := Apply(t, s1, WorkerRuns(e));
    hide Apply, Enabled;
    LeadsOne(t, s, TakeRequest);
    LeadsThen(t, s, [TakeRequest], s1, WorkerRuns(e));
    actions := [TakeRequest] + [WorkerRuns(e)];
  }

  /** A popup that was dismissed needs nothing done. */
  lemma DismissalIsNoted(t: Popups.Tools, s: State) returns (s': State)
    requires s.worker == Idle && s.requests != [] && s.requests[0].request == Dismissed
    ensures Leads(t, s, [TakeRequest], s') && s' == s.(requests := s.requests[1..])
  {
    hide Leads;
    s' := Apply(t, s, TakeRequest);
    hide Apply, Enabled;
    LeadsOne(t, s, TakeRequest);
  }

  /** A touch keeps the vault open for the timeout from now. */
  lemma TouchIsServed(t: Popups.Tools, s: State, g: VaultRuns.Ideal, e: Env, now: int) returns (actions: seq<Action>, s': State)
    requires Quiet(s) && s.requests != [] && s.requests[0].request == TouchRequest && Open(s.session, g, now)
    requires RowOrder(s.session.tables, e.order)
    ensures Leads(t, s, actions, s') && s' == s.(requests := s.requests[1..], session := s'.session)
    ensures Sessions.Observe(s'.session, now) == Sessions.Unlocked(s.session.timeout)
  {
    hide Leads, RowOrder, VaultRuns.MetaTableMatches, VaultRuns.EnrollmentsStored, VaultRuns.RowsMatch, Resolve, Awaited, ThreadStep, ThreadEnabled,
      UiStep, UiEnabled;
    var w := WorkerRuns(Now(e, now));
    var s1 := Apply(t, s, TakeRequest);
    assert s1 == s.(requests := s.requests[1..], worker := Acting(TouchAct));
    s' := Apply(t, s1, w);
    hide Apply, Enabled;
    LeadsOne(t, s, TakeRequest);
    LeadsThen(t, s, [TakeRequest], s1, w);
    actions := [TakeRequest] + [w];
  }

  /** Shutting down locks the vault and stops the worker. */
  lemma ShutdownLocks(t: Popups.Tools, s: State, e: Env) returns (actions: seq<Action>, s': State)
    requires Quiet(s) && RowOrder(s.session.tables, e.order)
    ensures Leads(t, s, actions, s') && s'.worker == Stopped
    ensures s'.session.inner == None && s'.session.deadline == None && s'.session.tables == s.session.tables
    ensures forall a | Enabled(s', a) :: !a.WorkerRuns? && !a.TakeRequest? && !a.HotkeyPressed? && !a.TickerFires?
  {
    hide Leads, RowOrder, Resolve, Awaited, ThreadStep, ThreadEnabled, UiStep, UiEnabled, TakeHead;
    var s1 := Apply(t, s, ShutdownAsked);
    s' := Apply(t, s1, WorkerRuns(e));
    assert forall a | Enabled(s', a) :: !a.WorkerRuns? && !a.TakeRequest? && !a.HotkeyPressed? && !a.TickerFires?;
    hide Apply, Enabled;
    LeadsOne(t, s, ShutdownAsked);
    LeadsThen(t, s, [ShutdownAsked], s1, WorkerRuns(e));
    actions := [ShutdownAsked] + [WorkerRuns(e)];
  }

  // ---- After a relock ------------------------------------------------------------------------------------

  /** What a request to edit or save goes on to do. */
  function Wanted(m: UiRequest): Option<Act> {
    match m
    case BeginEdit(id) => Some(EditAct(id))
    case Save(meta, payload, isUpdate) => Some(SaveAct(meta, payload, isUpdate))
    case _ => None
  }

  /** A request to edit or save that finds the vault locked first asks for an assertion, which the worker
      awaits. */
  lemma AsksFirst(t: Popups.Tools, s: State, e: Env, now: int) returns (actions: seq<Action>, s': State)
    requires Quiet(s) && s.requests != [] && Wanted(s.requests[0].request).Some? && RowOrder(s.session.tables, e.order)
    requires Sessions.Observe(s.session, now) == Sessions.Locked
    ensures Leads(t, s, actions, s')
    ensures s' == s.(requests := s.requests[1..], session := Sessions.Tick(s.session, now).0,
                     worker := Awaiting(Wanted(s.requests[0].request).value, |s.threads|),
                     threads := s.threads + [Thread(false, |s.log|, Wanting)])
  {
    hide Leads, RowOrder, Perform, Awaited, ThreadStep, ThreadEnabled, UiStep, UiEnabled;
    var w := WorkerRuns(Now(e, now));
    LockedTicks(s.session, now);
    hide Sessions.Tick, Sessions.Observe;
    var s1 := Apply(t, s, TakeRequest);
    var s2 := Apply(t, s1, w);
    var s3 := Apply(t, s2, w);
    assert s3.worker == SpawningAssertion(Wanted(s.requests[0].request).value);
    s' := Apply(t, s3, w);
    hide Apply, Enabled;
    LeadsOne(t, s, TakeRequest);
    LeadsThen(t, s, [TakeRequest], s1, w);
    LeadsThen(t, s, [TakeRequest] + [w], s2, w);
    LeadsThen(t, s, [TakeRequest] + [w] + [w], s3, w);
    actions := [TakeRequest] + [w] + [w] + [w];
  }

  /** So does one that comes while an unlock is under way; the session is then left alone. */
  lemma AsksBehind(t: Popups.Tools, s: State, e: Env) returns (actions: seq<Action>, s': State)
    requires s.worker == Idle && s.inFlight && s.requests != [] && Wanted(s.requests[0].request).Some? && RowOrder(s.session.tables, e.order)
    ensures Leads(t, s, actions, s')
    ensures s' == s.(requests := s.requests[1..], worker := Awaiting(Wanted(s.requests[0].request).value, |s.threads|),
                     threads := s.threads + [Thread(false, |s.log|, Wanting)])
  {
    hide Leads, RowOrder, Perform, Awaited, ThreadStep, ThreadEnabled, UiStep, UiEnabled;
    var w := WorkerRuns(e);
    var s1 := Apply(t, s, TakeRequest);
    var s2 := Apply(t, s1, w);
    assert s2.worker == SpawningAssertion(Wanted(s.requests[0].request).value);
    s' := Apply(t, s2, w);
    hide Apply, Enabled;
    LeadsOne(t, s, TakeRequest);
    LeadsThen(t, s, [TakeRequest], s1, w);
    LeadsThen(t, s, [TakeRequest] + [w], s2, w);
    actions := [TakeRequest] + [w] + [w];
  }

  lemma LockedTicks(v: Sessions.State, now: int)
    requires Sessions.Observe(v, now) == Sessions.Locked
    ensures Sessions.Tick(v, now).1 == Sessions.Locked && Sessions.Tick(v, now).0.tables == v.tables
  {
  }

  /** The awaited assertion decides: the worker goes on to what was wanted, or reports and does nothing, a
      deletion included. */
  lemma AssertionDecides(t: Popups.Tools, s: State, e: Env, who: Authenticator, now: int) returns (actions: seq<Action>, s': State)
    requires s.worker.Awaiting? && s.holder == None
    requires s.worker.next.DeleteAct? ==> Sessions.Unlock(s.session, who, now).1.Err?
    requires At(s, s.worker.thread) && s.threads[s.worker.thread].at.Wanting? && RowOrder(s.session.tables, e.order)
    ensures Leads(t, s, actions, s')
    ensures var (r, i) := (Sessions.Unlock(s.session, who, now), s.worker.thread);
            && s' == s.(session := r.0, worker := if r.1.Ok? then Acting(s.worker.next) else Idle, threads := s.threads[i := s.threads[i].(at := Gone)],
                        events := s.events + (if r.1.Ok? then [] else [Error(e.message)]),
                        log := s.log + [AssertionBegan(i), AssertionEnded(i, r.1.Ok?)])
            && (r.1.Err? ==> r.0 == s.session)
  {
    hide Leads, RowOrder, Sessions.Unlock, Perform, Resolve, TailStep, UiStep, UiEnabled, TakeHead;
    var i := s.worker.thread;
    ProtocolSafety.UnlockKeepsTables(s.session, who, now);
    ProtocolSafety.UnlockSetsBoth(s.session, who, now);
    var s1 := Apply(t, s, Acquire(i));
    var s2 := Apply(t, s1, Finish(i, who, now));
    s' := Apply(t, s2, WorkerRuns(e));
    assert s'.threads == s.threads[i := s.threads[i].(at := Gone)];
    assert s'.log == s.log + [AssertionBegan(i), AssertionEnded(i, Sessions.Unlock(s.session, who, now).1.Ok?)];
    assert s.events + [] == s.events;
    hide Apply, Enabled;
    LeadsOne(t, s, Acquire(i));
    LeadsThen(t, s, [Acquire(i)], s1, Finish(i, who, now));
    LeadsThen(t, s, [Acquire(i)] + [Finish(i, who, now)], s2, WorkerRuns(e));
    actions := [Acquire(i)] + [Finish(i, who, now)] + [WorkerRuns(e)];
  }

  /** An unlock that fails is reported to the popup, which shows the vault locked again. */
  lemma FailureIsReported(t: Popups.Tools, s: State, i: nat, e: Env) returns (actions: seq<Action>, s': State)
    requires At(s, i) && s.threads[i].claimed && s.threads[i].at.Finished? && !s.threads[i].at.unlocked
    requires RowOrder(s.session.tables, e.order)
    ensures Leads(t, s, actions, s')
    ensures s' == s.(threads := s.threads[i := s.threads[i].(at := Gone)], inFlight := false, log := s.log + [UnlockReleased(i)],
                     events := s.events + [LockChanged(UiLocked), Error(e.message)])
  {
    hide Leads, RowOrder, Sessions.Unlock, Sessions.ListSecrets, WorkerStep, WorkerEnabled, UiStep, UiEnabled, TakeHead;
    var s1 := Apply(t, s, Release(i));
    s' := Apply(t, s1, TailRuns(i, e));
    assert s'.threads == s.threads[i := s.threads[i].(at := Gone)];
    hide Apply, Enabled;
    LeadsOne(t, s, Release(i));
    LeadsThen(t, s, [Release(i)], s1, TailRuns(i, e));
    actions := [Release(i)] + [TailRuns(i, e)];
  }

  /** When another unlock was claimed meanwhile, one that has unlocked leaves the session alone to tell the
      popup that it waits, and still sends the list. */
  lemma ListComesWhileWaiting(t: Popups.Tools, s: State, g: VaultRuns.Ideal, i: nat, e: Env, now: int)
    returns (actions: seq<Action>, s': State, metas: seq<SecretMeta>)
    requires At(s, i) && s.threads[i].at.TailFlag? && s.inFlight && s.holder == None && Open(s.session, g, now)
    requires RowOrder(s.session.tables, e.order)
    ensures Leads(t, s, actions, s') && ListsAllOf(metas, g, e.order, e.lower)
    ensures s' == s.(threads := s.threads[i := s.threads[i].(at := Gone)],
                     events := s.events + [LockChanged(WaitingForTouch), Refresh(metas), Status(e.message)])
  {
    hide Leads, RowOrder, Open, ListsAllOf, Sessions.ListSecrets, Sessions.Tick, Sessions.Observe, WorkerStep, WorkerEnabled, UiStep, UiEnabled,
      TakeHead;
    metas := OpenLists(s.session, g, e, now);
    var a := TailRuns(i, Now(e, now));
    var s1 := Apply(t, s, a);
    s' := Apply(t, s1, a);
    assert s'.threads == s.threads[i := s.threads[i].(at := Gone)];
    assert s'.events == s.events + [LockChanged(WaitingForTouch), Refresh(metas), Status(e.message)];
    hide Apply, Enabled;
    LeadsOne(t, s, a);
    LeadsThen(t, s, [a], s1, a);
    actions := [a] + [a];
  }

  /** A refresh sends the list that there is. */
  lemma RefreshIsSent(t: Popups.Tools, s: State, g: VaultRuns.Ideal, e: Env, now: int) returns (s': State, metas: seq<SecretMeta>)
    requires s.worker == Acting(RefreshAct) && s.holder == None && Open(s.session, g, now) && RowOrder(s.session.tables, e.order)
    ensures Leads(t, s, [WorkerRuns(Now(e, now))], s') && ListsAllOf(metas, g, e.order, e.lower)
    ensures s' == s.(worker := Idle, events := s.events + [Refresh(metas)])
  {
    hide Leads, RowOrder, Open, ListsAllOf, Sessions.ListSecrets;
    metas := OpenLists(s.session, g, e, now);
    s' := Apply(t, s, WorkerRuns(Now(e, now)));
    hide Apply, Enabled;
    LeadsOne(t, s, WorkerRuns(Now(e, now)));
  }

  /** After a deletion the popup is sent the list of what is left. */
  lemma DeletionIsListed(t: Popups.Tools, session: Sessions.State, g: VaultRuns.Ideal, who: Authenticator, e: Env, now: int, id: Uuid,
                         order: seq<Bytes>)
    returns (actions: seq<Action>, s: State, g': VaultRuns.Ideal, metas: seq<SecretMeta>)
    requires VaultRuns.Inv(session, g) && session.inner == None && session.timeout > 0 && id in g.contents
    requires RowOrder(session.tables, e.order) && Sessions.Unlock(session, who, now).1.Ok?
    requires RowOrder(session.tables.(rows := session.tables.rows - {id}), order)
    ensures Leads(t, Start(session), actions, s) && VaultRuns.Inv(s.session, g') && g'.contents == g.contents - {id}
    ensures s.events != [] && s.events[|s.events| - 1] == Refresh(metas) && ListsAllOf(metas, g', order, e.lower)
  {
    hide Leads, RowOrder, Sessions.Unlock, VaultRuns.Inv, ListsAllOf;
    UnlockGives(session, g, who, now);
    var deleting, s1 := DeletionHappens(t, session, g, who, e, now, id);
    g' := OpenAfterDeletion(session, g, who, now, id);
    assert s1.session.tables == session.tables.(rows := session.tables.rows - {id});
    s, metas := RefreshIsSent(t, s1, g', e.(order := order), now);
    LeadsOn(t, Start(session), deleting, s1, [WorkerRuns(Now(e.(order := order), now))], s);
    actions := deleting + [WorkerRuns(Now(e.(order := order), now))];
  }

  lemma OpenAfterDeletion(session: Sessions.State, g: VaultRuns.Ideal, who: Authenticator, now: int, id: Uuid)
    returns (g': VaultRuns.Ideal)
    requires VaultRuns.Inv(session, g) && session.inner == None && session.timeout > 0 && id in g.contents
    requires Sessions.Unlock(session, who, now).1.Ok?
    ensures Open(Sessions.Delete(Sessions.Unlock(session, who, now).0, id).0, g', now) && g'.contents == g.contents - {id}
  {
    hide VaultRuns.Inv, Sessions.Unlock;
    UnlockGives(session, g, who, now);
    UnlockKeepsInv(session, g, who, now);
    VaultSafety.FailedUnlockChangesNothing(session, who, now);
    var v, g1 := Sessions.Unlock(session, who, now).0, VaultRuns.IdealUnlock(g, who, now).0;
    VaultRuns.DeleteRefines(v, g1, id);
    g' := VaultRuns.IdealStep(g1, VaultRuns.DeleteOp(id)).0;
    IdOf(v, g1, id);
  }

  /** A request that the vault refuses is reported, and nothing is stored or shown: a secret that is not
      there cannot be used or edited. */
  lemma MissingIsReported(t: Popups.Tools, s: State, e: Env, now: int, id: Uuid) returns (actions: seq<Action>, s': State)
    requires Quiet(s) && s.requests != [] && s.requests[0].request == Use(id) && id !in s.session.tables.rows
    requires RowOrder(s.session.tables, e.order)
    ensures Leads(t, s, actions, s') && s' == s.(requests := s.requests[1..], events := s.events + [Error(e.message)])
  {
    hide Leads, RowOrder, Resolve, Awaited, ThreadStep, ThreadEnabled, UiStep, UiEnabled;
    var w := WorkerRuns(Now(e, now));
    var s1 := Apply(t, s, TakeRequest);
    assert s1 == s.(requests := s.requests[1..], worker := Acting(UseAct(id)));
    s' := Apply(t, s1, w);
    hide Apply, Enabled;
    LeadsOne(t, s, TakeRequest);
    LeadsThen(t, s, [TakeRequest], s1, w);
    actions := [TakeRequest] + [w];
  }

  /** What the vault refuses: a secret that is not there, a new one under a taken id, or anything but a
      deletion while it is locked. */
  predicate Refuses(v: Sessions.State, act: Act, now: int)
    requires act.UseAct? || act.EditAct? || act.SaveAct? || act.DeleteAct?
  {
    match act
    case UseAct(id) => id !in v.tables.rows || Sessions.Observe(v, now).Locked?
    case EditAct(id) => id !in v.tables.rows || Sessions.Observe(v, now).Locked?
    case SaveAct(meta, _, isUpdate) => Sessions.Observe(v, now).Locked? || (isUpdate != (meta.id in v.tables.rows))
    case DeleteAct(w) => w.id !in v.tables.rows
  }

  /** The popup is told of a failure exactly when the vault refuses, and then nothing is stored, shown or
      typed. */
  lemma RefusalsAreReported(t: Popups.Tools, s: State, g: VaultRuns.Ideal, e: Env, now: int)
    requires s.worker.Acting? && s.holder == None && VaultRuns.Inv(s.session, g) && RowOrder(s.session.tables, e.order)
    requires var act := s.worker.act; act.UseAct? || act.EditAct? || act.SaveAct? || act.DeleteAct?
    ensures var s' := Apply(t, s, WorkerRuns(Now(e, now)));
            && (s'.events == s.events + [Error(e.message)] <==> Refuses(s.session, s.worker.act, now))
            && (Refuses(s.session, s.worker.act, now)
                ==> s' == s.(worker := Idle, session := s'.session, events := s'.events) && s'.session.tables == s.session.tables)
  {
    hide VaultRuns.Inv, Stored, Sessions.Observe, RowOrder, Refuses, Perform, Awaited, Resolve, ThreadStep, ThreadEnabled, UiStep, UiEnabled,
      TakeHead, Sessions.OpenSecret, Sessions.MetaFor, Sessions.Delete, Sessions.Tick, Sessions.Lock;
    var act := s.worker.act;
    VaultAnswers(s.session, g, act, e, now);
    Reports(s, act, Now(e, now), Refuses(s.session, act, now));
    assert Apply(t, s, WorkerRuns(Now(e, now))) == Perform(s, act, Now(e, now));
  }

  /** A failing operation of the vault is reported, and nothing else. */
  lemma Reports(s: State, act: Act, e: Env, refused: bool)
    requires RowOrder(s.session.tables, e.order) && (act.UseAct? || act.EditAct? || act.SaveAct? || act.DeleteAct?)
    requires act.UseAct? ==> (Sessions.OpenSecret(s.session, act.id, e.clock).1.Err? <==> refused)
    requires act.UseAct? ==> Sessions.OpenSecret(s.session, act.id, e.clock).0.tables == s.session.tables
    requires act.EditAct? ==> var m := Sessions.MetaFor(s.session, act.id, e.clock.check);
             && (m.1.Err? <==> refused) && m.0.tables == s.session.tables
             && (m.1.Ok? ==> Sessions.OpenSecret(m.0, act.id, e.clock).1.Ok?)
    requires act.SaveAct? ==> var r := Stored(s.session, act.meta, act.payload, act.isUpdate, e);
             (r.1.Err? <==> refused) && (r.1.Err? ==> r.0.tables == s.session.tables)
    requires act.DeleteAct? ==> (Sessions.Delete(s.session, act.warrant.id).1.Err? <==> refused)
    requires act.DeleteAct? && refused ==> Sessions.Delete(s.session, act.warrant.id).0 == s.session
    ensures var s' := Perform(s, act, e);
            && (s'.events == s.events + [Error(e.message)] <==> refused)
            && (refused ==> s' == s.(worker := Idle, session := s'.session, events := s'.events) && s'.session.tables == s.session.tables)
  {
    hide Sessions.OpenSecret, Sessions.MetaFor, Sessions.Add, Sessions.Update, Sessions.Delete, RowOrder, Sessions.ListSecrets, Sessions.Touch,
      Sessions.Lock;
    var s' := Perform(s, act, e);
    if s'.events == s.events + [Error(e.message)] {
      assert s'.events[|s.events|] == Error(e.message);
    }
  }

  /** What the operations of the vault answer to the act of a request. */
  lemma VaultAnswers(v: Sessions.State, g: VaultRuns.Ideal, act: Act, e: Env, now: int)
    requires VaultRuns.Inv(v, g) && (act.UseAct? || act.EditAct? || act.SaveAct? || act.DeleteAct?)
    ensures act.UseAct? ==> var r := Sessions.OpenSecret(v, act.id, Sessions.Clock(now, now));
            (r.1.Err? <==> Refuses(v, act, now)) && r.0.tables == v.tables
    ensures act.EditAct? ==> var m := Sessions.MetaFor(v, act.id, now);
            var r := Sessions.OpenSecret(m.0, act.id, Sessions.Clock(now, now));
            (m.1.Err? <==> Refuses(v, act, now)) && m.0.tables == v.tables && (m.1.Ok? ==> r.1.Ok?)
    ensures act.SaveAct? ==> var r := Stored(v, act.meta, act.payload, act.isUpdate, Now(e, now));
            (r.1.Err? <==> Refuses(v, act, now)) && (r.1.Err? ==> r.0.tables == v.tables)
    ensures act.DeleteAct? ==> var r := Sessions.Delete(v, act.warrant.id);
            (r.1.Err? <==> Refuses(v, act, now)) && (r.1.Err? ==> r.0 == v)
  {
    hide VaultRuns.Inv, Sessions.OpenSecret, Sessions.MetaFor, Sessions.Observe, Stored;
    if act.UseAct? || act.EditAct? {
      Readable(v, g, act.id, now);
    } else if act.SaveAct? {
      Storable(v, act.meta, act.payload, act.isUpdate, e, now);
    }
  }

  /** A secret can be stored exactly while the vault is unlocked, as new when it is not there, and as an update
      when it is. */
  lemma Storable(v: Sessions.State, meta: SecretMeta, payload: SecretPayload, isUpdate: bool, e: Env, now: int)
    ensures var r := Stored(v, meta, payload, isUpdate, Now(e, now));
            && (r.1.Ok? <==> Sessions.Observe(v, now).Unlocked? && (isUpdate <==> meta.id in v.tables.rows))
            && (r.1.Err? ==> r.0.tables == v.tables)
  {
    hide Sessions.SealedRow;
  }

  /** A row reads exactly when it is there and the vault is unlocked. */
  lemma Readable(v: Sessions.State, g: VaultRuns.Ideal, id: Uuid, now: int)
    requires VaultRuns.Inv(v, g)
    ensures var (m, r) := (Sessions.MetaFor(v, id, now), Sessions.OpenSecret(v, id, Sessions.Clock(now, now)));
            && (m.1.Ok? <==> id in v.tables.rows && Sessions.Observe(v, now).Unlocked?)
            && (r.1.Ok? <==> id in v.tables.rows && Sessions.Observe(v, now).Unlocked?)
            && (m.1.Ok? ==> m.0 == v) && m.0.tables == v.tables && r.0.tables == v.tables
  {
    hide VaultRuns.Inv, Sessions.OpenSecret, Sessions.MetaFor, Sessions.Observe;
    if id in v.tables.rows && Sessions.Observe(v, now).Unlocked? {
      ReadsUnlocked(v, g, id, now);
    } else {
      ReadsNothing(v, id, now);
    }
  }

  lemma ReadsUnlocked(v: Sessions.State, g: VaultRuns.Ideal, id: Uuid, now: int)
    requires VaultRuns.Inv(v, g) && id in v.tables.rows && Sessions.Observe(v, now).Unlocked?
    ensures Sessions.MetaFor(v, id, now).1.Ok? && Sessions.OpenSecret(v, id, Sessions.Clock(now, now)).1.Ok?
    ensures Sessions.MetaFor(v, id, now).0 == v && Sessions.OpenSecret(v, id, Sessions.Clock(now, now)).0.tables == v.tables
  {
    hide VaultRuns.Inv, Sessions.OpenSecret, Sessions.MetaFor, Sessions.Observe;
    IdIsStored(v, g, id);
    VaultSafety.ReadsContents(v, g, id, Sessions.Clock(now, now));
    ReadsKeep(v, id, now);
  }

  lemma ReadsKeep(v: Sessions.State, id: Uuid, now: int)
    requires id in v.tables.rows && Sessions.Observe(v, now).Unlocked?
    ensures Sessions.MetaFor(v, id, now).0 == v && Sessions.OpenSecret(v, id, Sessions.Clock(now, now)).0.tables == v.tables
  {
    hide Envelope.OpenMeta, Envelope.OpenPayload;
  }

  lemma IdIsStored(v: Sessions.State, g: VaultRuns.Ideal, id: Uuid)
    requires VaultRuns.Inv(v, g) && id in v.tables.rows
    ensures id in g.contents
  {
    hide VaultRuns.MetaTableMatches, VaultRuns.EnrollmentsStored, VaultRuns.Holds;
    assert id in v.tables.rows.Keys;
  }

  lemma ReadsNothing(v: Sessions.State, id: Uuid, now: int)
    requires id in v.tables.rows ==> Sessions.Observe(v, now).Locked?
    ensures Sessions.MetaFor(v, id, now).1.Err? && Sessions.OpenSecret(v, id, Sessions.Clock(now, now)).1.Err?
    ensures Sessions.MetaFor(v, id, now).0.tables == v.tables
    ensures Sessions.OpenSecret(v, id, Sessions.Clock(now, now)).0.tables == v.tables
  {
    hide Envelope.OpenMeta, Envelope.OpenPayload;
  }
}
