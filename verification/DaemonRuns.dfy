/** Runs that exist: the interleavings that the safety theorems speak of do occur (`daemon.rs`, `pin.rs`,
    `ui/popup.rs`). Each is found for every vault, every authenticator and every PIN that fits it. */
module DaemonRuns {
  import opened Common
  import opened Symbolic
  import opened Keys
  import opened Model
  import opened Db
  import opened Messages
  import opened SharedState
  import opened Protocol
  import Chars
  import Fuzzy
  import Popups
  import ProtocolSafety
  import Sessions
  import StableSort
  import VaultRuns
  import VaultSafety

  /** The daemon goes from `s` to `s'` by `actions`. */
  ghost predicate Leads(t: Popups.Tools, s: State, actions: seq<Action>, s': State) {
    ValidRun(t, s, actions) && Run(t, s, actions) == s'
  }

  lemma LeadsOne(t: Popups.Tools, s: State, a: Action)
    requires Enabled(s, a)
    ensures Leads(t, s, [a], Apply(t, s, a))
  {
    hide Enabled, Apply;
    assert [a][0] == a && [a][1..] == [];
    assert ValidRun(t, Apply(t, s, a), []) && Run(t, Apply(t, s, a), []) == Apply(t, s, a);
  }

  lemma {:induction false} LeadsOn(t: Popups.Tools, s: State, a: seq<Action>, s1: State, b: seq<Action>, s2: State)
    requires Leads(t, s, a, s1) && Leads(t, s1, b, s2)
    ensures Leads(t, s, a + b, s2)
    decreases |a|
  {
    hide Enabled, Apply;
    if a == [] {
      assert a + b == b;
    } else {
      assert (a + b)[1..] == a[1..] + b;
      LeadsOn(t, Apply(t, s, a[0]), a[1..], s1, b, s2);
    }
  }

  lemma LeadsThen(t: Popups.Tools, s: State, actions: seq<Action>, s1: State, a: Action)
    requires Leads(t, s, actions, s1) && Enabled(s1, a)
    ensures Leads(t, s, actions + [a], Apply(t, s1, a))
  {
    hide Enabled, Apply, Leads;
    LeadsOne(t, s1, a);
    LeadsOn(t, s, actions, s1, [a], Apply(t, s1, a));
  }

  // ---- A claimed unlock begins ----------------------------------------------------------------

  /** A claimed unlock waits for the session, and the popup is told. */
  function PendingFor(s: State, host: Option<string>, application: Option<string>): State {
    s.(events := s.events + [Show([], host, application)] + [LockChanged(UiLocked)] + [LockChanged(WaitingForTouch)],
       inFlight := true, threads := s.threads + [Thread(true, |s.log| + 1, Wanting)], log := s.log + [UnlockClaimed])
  }

  function HotkeyOn(e: Env, host: Option<string>, application: Option<string>): seq<Action> {
    [HotkeyPressed(host, application)] + [WorkerRuns(e)] + [WorkerRuns(e)] + [WorkerRuns(e)] + [WorkerRuns(e)] + [WorkerRuns(e)] + [WorkerRuns(e)]
  }

  function Pending(s: State): State {
    PendingFor(s, None, None)
  }

  function Hotkey(e: Env): seq<Action> {
    HotkeyOn(e, None, None)
  }

  /** Pressing the hotkey on a locked vault opens an empty popup for the site and application in front, and
      starts one unlock. */
  lemma HotkeyStartsAnUnlock(t: Popups.Tools, s: State, e: Env, host: Option<string>, application: Option<string>)
    requires s.worker.Idle? && !s.inFlight && s.holder.None?
    requires s.session.inner == None && RowOrder(s.session.tables, e.order)
    ensures Leads(t, s, HotkeyOn(e, host, application), PendingFor(s, host, application))
  {
    hide Leads, RowOrder, Popups.Step;
    var w, h := WorkerRuns(e), [HotkeyPressed(host, application)];
    var s1 := s.(worker := ReadingFlag(HotkeyCheck(host, application)));
    var s2 := s.(worker := ReadingSession(HotkeyCheck(host, application)));
    var s3 := s.(worker := ReadingFlag(HotkeyShown(false)), events := s.events + [Show([], host, application)]);
    var s4 := s3.(worker := ReadingSession(HotkeyShown(false)));
    var s5 := s3.(worker := Claiming, events := s3.events + [LockChanged(UiLocked)]);
    var s6 := s5.(worker := Spawning, inFlight := true, log := s.log + [UnlockClaimed]);
    assert Apply(t, s, h[0]) == s1;
    assert Apply(t, s1, w) == s2;
    assert Apply(t, s2, w) == s3;
    assert Apply(t, s3, w) == s4;
    assert Apply(t, s4, w) == s5;
    assert Apply(t, s5, w) == s6;
    assert Apply(t, s6, w) == PendingFor(s, host, application);
    hide Apply, Enabled, PendingFor;
    LeadsOne(t, s, h[0]);
    LeadsThen(t, s, h, s1, w);
    LeadsThen(t, s, h + [w], s2, w);
    LeadsThen(t, s, h + [w] + [w], s3, w);
    LeadsThen(t, s, h + [w] + [w] + [w], s4, w);
    LeadsThen(t, s, h + [w] + [w] + [w] + [w], s5, w);
    LeadsThen(t, s, h + [w] + [w] + [w] + [w] + [w], s6, w);
  }

  // ---- A prompt and its answer ------------------------------------------------------------------

  /** Thread `i` has drained the channel and waits for a PIN. */
  function Asked(s: State, i: nat): State
    requires At(s, i)
  {
    s.(threads := s.threads[i := s.threads[i].(at := Asserting(|s.log|, Waiting(|s.log| + 1)))], holder := Some(i),
       events := s.events + [RequestPin(false)],
       log := s.log + [AssertionBegan(i)] + [PinDrained(i, PinsWaiting(s.requests))])
  }

  lemma Asks(t: Popups.Tools, s: State, i: nat) returns (actions: seq<Action>)
    requires At(s, i) && s.threads[i].at.Wanting? && s.holder.None? && s.answers == []
    ensures Leads(t, s, actions, Asked(s, i))
  {
    hide Leads, PinsWaiting, RowOrder, TailStep, TakeHead, WorkerStep, WorkerEnabled, UiStep, UiEnabled;
    var s1 := Apply(t, s, Acquire(i));
    var s2 := Apply(t, s1, WantPin(i));
    var s3 := Apply(t, s2, DrainDone(i));
    assert Apply(t, s3, AskUser(i, false)) == Asked(s, i);
    hide Apply, Enabled, Asked;
    LeadsOne(t, s, Acquire(i));
    LeadsThen(t, s, [Acquire(i)], s1, WantPin(i));
    LeadsThen(t, s, [Acquire(i)] + [WantPin(i)], s2, DrainDone(i));
    LeadsThen(t, s, [Acquire(i)] + [WantPin(i)] + [DrainDone(i)], s3, AskUser(i, false));
    actions := [Acquire(i)] + [WantPin(i)] + [DrainDone(i)] + [AskUser(i, false)];
  }

  function Hear(ev: DaemonEvent): Action {
    UiActs(Popups.EventStep(ev))
  }

  /** All but the popup, its queue of events and its confirmation. */
  predicate SameDaemon(s: State, s': State) {
    s' == s.(ui := s'.ui, events := s'.events, confirmation := s'.confirmation)
  }

  lemma Hears(t: Popups.Tools, s: State) returns (s': State)
    requires s.events != [] && !s.events[0].Hide?
    ensures Leads(t, s, [Hear(s.events[0])], s') && SameDaemon(s, s')
    ensures s'.events == s.events[1..] && s'.ui == Popups.HandleEvent(t, s.ui, s.events[0]).state
    ensures s'.confirmation == if s'.ui.mode.ConfirmDelete? then s.confirmation else None
  {
    hide Leads, Fuzzy.Rank;
    s' := Apply(t, s, Hear(s.events[0]));
    assert Tag(s, []) == [] && s.requests + [] == s.requests && s.log + [] == s.log;
    hide Apply, Enabled;
    LeadsOne(t, s, Hear(s.events[0]));
  }

  /** Whatever else it is told, the popup ends up in the prompt when that comes last. */
  lemma {:induction false} HearsThePrompt(t: Popups.Tools, s: State) returns (actions: seq<Action>, s': State)
    requires s.events != [] && s.events[|s.events| - 1] == RequestPin(false)
    requires forall k | 0 <= k < |s.events| :: !s.events[k].Hide?
    ensures Leads(t, s, actions, s') && SameDaemon(s, s')
    ensures s'.events == [] && s'.ui.visible && s'.ui.mode == Popups.PinMode("", false)
    decreases |s.events|
  {
    hide Leads, Fuzzy.Rank;
    var s1 := Hears(t, s);
    if |s.events| == 1 {
      actions, s' := [Hear(s.events[0])], s1;
    } else {
      assert forall k | 0 <= k < |s1.events| :: s1.events[k] == s.events[k + 1];
      var rest;
      rest, s' := HearsThePrompt(t, s1);
      LeadsOn(t, s, [Hear(s.events[0])], s1, rest, s');
      actions := [Hear(s.events[0])] + rest;
    }
  }

  function Enter(): Action {
    UiActs(Popups.TickStep(Popups.NoKeys().(enter := true), Popups.Chance(Nil(), 0)))
  }

  /** The popup's answer stands last among the requests. */
  predicate Answers(s: State, s': State, pin: string) {
    && s' == s.(ui := s'.ui, events := s'.events, confirmation := s'.confirmation, requests := s'.requests, log := s.log + [PinSent])
    && |s'.requests| == |s.requests| + 1 && s'.requests[..|s.requests|] == s.requests
    && s'.requests[|s.requests|].request == PinResponse(Some(pin)) && s'.requests[|s.requests|].sent == |s.log|
  }

  lemma Types(t: Popups.Tools, s: State, pin: string) returns (actions: seq<Action>, s': State)
    requires s.ui.visible && s.ui.mode.PinMode? && pin != ""
    ensures Leads(t, s, actions, s') && Answers(s, s', pin) && s'.events == s.events
  {
    hide Leads;
    var frame := UiActs(Popups.PinFrame(pin));
    var s1 := Apply(t, s, frame);
    assert Tag(s, []) == [] && s.requests + [] == s.requests && s.log + [] == s.log;
    assert s1.ui == s.ui.(mode := Popups.PinMode(pin, s.ui.mode.retry)) && s1.requests == s.requests && s1.log == s.log;
    s' := Apply(t, s1, Enter());
    assert Popups.Step(t, s1.ui, Enter().step).sent == [PinResponse(Some(pin))];
    ProtocolSafety.TagOfOne(s1, [PinResponse(Some(pin))]);
    hide Apply, Enabled;
    LeadsOne(t, s, frame);
    LeadsThen(t, s, [frame], s1, Enter());
    actions := [frame] + [Enter()];
  }

  /** A prompt is heard and answered. */
  lemma IsAnswered(t: Popups.Tools, s: State, pin: string) returns (actions: seq<Action>, s': State)
    requires s.events != [] && s.events[|s.events| - 1] == RequestPin(false) && pin != ""
    requires forall k | 0 <= k < |s.events| :: !s.events[k].Hide?
    ensures Leads(t, s, actions, s') && Answers(s, s', pin) && s'.events == []
  {
    hide Leads;
    var heard, s1 := HearsThePrompt(t, s);
    var typed;
    typed, s' := Types(t, s1, pin);
    LeadsOn(t, s, heard, s1, typed, s');
    actions := heard + typed;
  }

  /** From a locked vault: a claimed unlock asks for a PIN and the user types one. */
  lemma FirstPrompt(t: Popups.Tools, session: Sessions.State, e: Env, pin: string) returns (actions: seq<Action>, s: State)
    requires session.inner == None && RowOrder(session.tables, e.order) && pin != ""
    ensures Leads(t, Start(session), actions, s)
    ensures s.threads == [Thread(true, 1, Asserting(1, Waiting(2)))] && s.holder == Some(0) && s.inFlight
    ensures s.worker == Idle && s.session == session && s.answers == [] && s.events == []
    ensures |s.requests| == 1 && s.requests[0].request == PinResponse(Some(pin)) && s.requests[0].sent == 3
    ensures s.log == [UnlockClaimed, AssertionBegan(0), PinDrained(0, {}), PinSent]
  {
    hide Leads, RowOrder;
    var s0 := Start(session);
    HotkeyStartsAnUnlock(t, s0, e, None, None);
    var s1 := Pending(s0);
    var asking := Asks(t, s1, 0);
    var s2 := Asked(s1, 0);
    assert PinsWaiting(s1.requests) == {};
    assert s2.log == [UnlockClaimed, AssertionBegan(0), PinDrained(0, {})];
    var answering;
    answering, s := IsAnswered(t, s2, pin);
    LeadsOn(t, s0, Hotkey(e), s1, asking, s2);
    LeadsOn(t, s0, Hotkey(e) + asking, s2, answering, s);
    actions := Hotkey(e) + asking + answering;
  }

  /** A claimed assertion does receive the PIN that was typed for it. */
  lemma PinArrives(t: Popups.Tools, session: Sessions.State, e: Env, pin: string) returns (actions: seq<Action>, s: State)
    requires session.inner == None && RowOrder(session.tables, e.order) && pin != ""
    ensures Leads(t, Start(session), actions, s) && Enabled(s, ReceivePin(0)) && s.answers[0].pin == Some(pin)
    ensures Apply(t, s, ReceivePin(0)).log
         == [UnlockClaimed, AssertionBegan(0), PinDrained(0, {}), PinSent, PinEnqueued(3), PinReceived(0, 2, 3, 4)]
  {
    hide Leads, RowOrder;
    var first, s1 := FirstPrompt(t, session, e, pin);
    s := Apply(t, s1, TakeRequest);
    LeadsThen(t, Start(session), first, s1, TakeRequest);
    actions := first + [TakeRequest];
  }

  /** Thread `i` gives up, and its claim is released. */
  lemma GivesUp(t: Popups.Tools, s: State, i: nat, who: Authenticator, now: int) returns (actions: seq<Action>, s': State)
    requires At(s, i) && s.threads[i].claimed && s.threads[i].at.Asserting? && s.threads[i].at.pin.Waiting?
    requires Sessions.Unlock(s.session, who, now).1.Err?
    ensures Leads(t, s, actions, s')
    ensures s' == s.(threads := s.threads[i := s.threads[i].(at := TailFailed)], holder := None, inFlight := false,
                     log := s.log + [AssertionEnded(i, false), UnlockReleased(i)])
  {
    hide Leads, Sessions.Unlock, RowOrder, TailStep, TakeHead, WorkerStep, WorkerEnabled, UiStep, UiEnabled;
    ProtocolSafety.UnlockSetsBoth(s.session, who, now);
    var s1 := Apply(t, s, PinTimesOut(i));
    var s2 := Apply(t, s1, Finish(i, who, now));
    s' := Apply(t, s2, Release(i));
    assert s'.threads == s.threads[i := s.threads[i].(at := TailFailed)];
    assert s'.log == s.log + [AssertionEnded(i, false), UnlockReleased(i)];
    hide Apply, Enabled;
    LeadsOne(t, s, PinTimesOut(i));
    LeadsThen(t, s, [PinTimesOut(i)], s1, Finish(i, who, now));
    LeadsThen(t, s, [PinTimesOut(i)] + [Finish(i, who, now)], s2, Release(i));
    actions := [PinTimesOut(i)] + [Finish(i, who, now)] + [Release(i)];
  }

  /** The drain does not make sure that a PIN is typed for the prompt that gets it. From every locked vault,
      an answer to a first prompt that was given up is received by the second, although it was sent before
      that assertion began. */
  lemma StalePinArrives(t: Popups.Tools, session: Sessions.State, e: Env, pin: string, who: Authenticator, now: int)
    returns (actions: seq<Action>, s: State)
    requires session.inner == None && RowOrder(session.tables, e.order) && pin != ""
    requires Sessions.Unlock(session, who, now).1.Err?
    ensures Leads(t, Start(session), actions, s) && Enabled(s, ReceivePin(1)) && s.answers[0].pin == Some(pin)
    ensures Apply(t, s, ReceivePin(1)).log
         == [UnlockClaimed, AssertionBegan(0), PinDrained(0, {}), PinSent, AssertionEnded(0, false), UnlockReleased(0),
             UnlockClaimed, AssertionBegan(1), PinDrained(1, {3}), PinEnqueued(3), PinReceived(1, 8, 3, 9)]
  {
    hide Leads, RowOrder, Sessions.Unlock;
    var s0 := Start(session);
    var first, s1 := FirstPrompt(t, session, e, pin);
    var giving, s2 := GivesUp(t, s1, 0, who, now);
    HotkeyStartsAnUnlock(t, s2, e, None, None);
    var s3 := Pending(s2);
    var asking := Asks(t, s3, 1);
    var s4 := Asked(s3, 1);
    assert PinsWaiting(s3.requests) == {3};
    assert |s3.log| == 7;
    assert s4.log == [UnlockClaimed, AssertionBegan(0), PinDrained(0, {}), PinSent, AssertionEnded(0, false), UnlockReleased(0),
                      UnlockClaimed, AssertionBegan(1), PinDrained(1, {3})];
    s := Apply(t, s4, TakeRequest);
    LeadsOn(t, s0, first, s1, giving, s2);
    LeadsOn(t, s0, first + giving, s2, Hotkey(e), s3);
    LeadsOn(t, s0, first + giving + Hotkey(e), s3, asking, s4);
    LeadsThen(t, s0, first + giving + Hotkey(e) + asking, s4, TakeRequest);
    actions := first + giving + Hotkey(e) + asking + [TakeRequest];
  }

  // ---- The list is opened ---------------------------------------------------------------------------

  lemma Succeeds(t: Popups.Tools, s: State, i: nat, who: Authenticator, now: int) returns (actions: seq<Action>, s': State)
    requires At(s, i) && s.threads[i].at.Wanting? && s.holder.None?
    requires Sessions.Unlock(s.session, who, now).1.Ok?
    ensures Leads(t, s, actions, s')
    ensures s' == s.(threads := s.threads[i := s.threads[i].(at := Finished(true, |s.log|, |s.log| + 1))],
                     session := Sessions.Unlock(s.session, who, now).0, log := s.log + [AssertionBegan(i), AssertionEnded(i, true)])
  {
    hide Leads, Sessions.Unlock, RowOrder, TailStep, TakeHead, WorkerStep, WorkerEnabled, UiStep, UiEnabled;
    var s1 := Apply(t, s, Acquire(i));
    s' := Apply(t, s1, Finish(i, who, now));
    assert s'.threads == s.threads[i := s.threads[i].(at := Finished(true, |s.log|, |s.log| + 1))];
    assert s'.log == s.log + [AssertionBegan(i), AssertionEnded(i, true)];
    hide Apply, Enabled;
    LeadsOne(t, s, Acquire(i));
    LeadsThen(t, s, [Acquire(i)], s1, Finish(i, who, now));
    actions := [Acquire(i)] + [Finish(i, who, now)];
  }

  /** The spawned unlock releases its claim and sends the list. */
  lemma SendsTheList(t: Popups.Tools, s: State, i: nat, e: Env, metas: seq<SecretMeta>) returns (actions: seq<Action>, s': State)
    requires At(s, i) && s.threads[i].claimed && s.threads[i].at.Finished? && s.threads[i].at.unlocked && s.holder.None?
    requires RowOrder(s.session.tables, e.order) && Sessions.Observe(s.session, e.clock.check).Unlocked?
    requires Sessions.ListSecrets(s.session, e.order, e.lower, e.clock.check).1 == Ok(metas)
    ensures Leads(t, s, actions, s')
    ensures s' == s.(threads := s.threads[i := s.threads[i].(at := Gone)], inFlight := false, log := s.log + [UnlockReleased(i)],
                     events := s.events + [LockChanged(ForUi(Sessions.Observe(s.session, e.clock.check))), Refresh(metas), Status(e.message)])
  {
    hide Leads, RowOrder, Sessions.ListSecrets, Sessions.Unlock, TakeHead, WorkerStep, WorkerEnabled, UiStep, UiEnabled;
    StaysUnlocked(s.session, e);
    var s1 := Apply(t, s, Release(i));
    var s2 := Apply(t, s1, TailRuns(i, e));
    var s3 := Apply(t, s2, TailRuns(i, e));
    s' := Apply(t, s3, TailRuns(i, e));
    assert s'.threads == s.threads[i := s.threads[i].(at := Gone)];
    assert s'.events == s.events + [LockChanged(ForUi(Sessions.Observe(s.session, e.clock.check))), Refresh(metas), Status(e.message)];
    hide Apply, Enabled;
    LeadsOne(t, s, Release(i));
    LeadsThen(t, s, [Release(i)], s1, TailRuns(i, e));
    LeadsThen(t, s, [Release(i)] + [TailRuns(i, e)], s2, TailRuns(i, e));
    LeadsThen(t, s, [Release(i)] + [TailRuns(i, e)] + [TailRuns(i, e)], s3, TailRuns(i, e));
    actions := [Release(i)] + [TailRuns(i, e)] + [TailRuns(i, e)] + [TailRuns(i, e)];
  }

  lemma StaysUnlocked(v: Sessions.State, e: Env)
    requires RowOrder(v.tables, e.order) && Sessions.Observe(v, e.clock.check).Unlocked?
    ensures Sessions.Tick(v, e.clock.check) == (v, Sessions.Observe(v, e.clock.check))
    ensures Sessions.ListSecrets(v, e.order, e.lower, e.clock.check).0 == v
  {
    hide Sessions.OpenRows, RowOrder;
  }

  /** The daemon's clock stands still at `now`. */
  function Now(e: Env, now: int): Env {
    e.(clock := Sessions.Clock(now, now))
  }

  /** From a locked vault that `who` unlocks: the list is on its way to the popup. */
  lemma ListIsSent(t: Popups.Tools, session: Sessions.State, g: VaultRuns.Ideal, who: Authenticator, e: Env, now: int)
    returns (actions: seq<Action>, s: State, state: UiLockState, metas: seq<SecretMeta>)
    requires VaultRuns.Inv(session, g) && session.inner == None && session.timeout > 0
    requires RowOrder(session.tables, e.order) && Sessions.Unlock(session, who, now).1.Ok?
    ensures Leads(t, Start(session), actions, s)
    ensures s.events == [Show([], None, None), LockChanged(UiLocked), LockChanged(WaitingForTouch), LockChanged(state),
                         Refresh(metas), Status(e.message)]
    ensures s == Start(session).(threads := [Thread(true, 1, Gone)], session := Sessions.Unlock(session, who, now).0, events := s.events,
                                 log := [UnlockClaimed, AssertionBegan(0), AssertionEnded(0, true), UnlockReleased(0)])
    ensures forall id | id in g.contents :: g.contents[id].meta in metas
  {
    hide Leads, RowOrder, Sessions.Unlock, Sessions.ListSecrets, VaultRuns.Inv, Sessions.Observe;
    var s0, v := Start(session), Sessions.Unlock(session, who, now).0;
    UnlockGives(session, g, who, now);
    UnlockKeepsInv(session, g, who, now);
    metas := ListsAll(v, VaultRuns.IdealUnlock(g, who, now).0, Now(e, now));
    state := ForUi(Sessions.Observe(v, now));
    HotkeyStartsAnUnlock(t, s0, e, None, None);
    var s1 := Pending(s0);
    var unlocking, s2 := Succeeds(t, s1, 0, who, now);
    var listing;
    listing, s := SendsTheList(t, s2, 0, Now(e, now), metas);
    LeadsOn(t, s0, Hotkey(e), s1, unlocking, s2);
    LeadsOn(t, s0, Hotkey(e) + unlocking, s2, listing, s);
    actions := Hotkey(e) + unlocking + listing;
    assert s.threads == [Thread(true, 1, Gone)];
    assert s.events == [Show([], None, None), LockChanged(UiLocked), LockChanged(WaitingForTouch),
                        LockChanged(state), Refresh(metas), Status(e.message)];
  }

  lemma UnlockGives(session: Sessions.State, g: VaultRuns.Ideal, who: Authenticator, now: int)
    requires VaultRuns.Inv(session, g) && session.inner == None && session.timeout > 0
    requires Sessions.Unlock(session, who, now).1.Ok?
    ensures var v := Sessions.Unlock(session, who, now).0;
            v.tables == session.tables && Sessions.Observe(v, now).Unlocked? && Sessions.Lock(v) == session
  {
    hide VaultRuns.Inv, Sessions.Unlock;
    NoDeadlineWhileLocked(session, g);
    VaultSafety.FailedUnlockChangesNothing(session, who, now);
  }

  lemma UnlockKeepsInv(session: Sessions.State, g: VaultRuns.Ideal, who: Authenticator, now: int)
    requires VaultRuns.Inv(session, g)
    ensures VaultRuns.Inv(Sessions.Unlock(session, who, now).0, VaultRuns.IdealUnlock(g, who, now).0)
    ensures VaultRuns.IdealUnlock(g, who, now).0.contents == g.contents
  {
    hide Sessions.Unlock, VaultRuns.Inv;
    VaultRuns.UnlockRefines(session, g, who, now);
  }

  lemma NoDeadlineWhileLocked(session: Sessions.State, g: VaultRuns.Ideal)
    requires VaultRuns.Inv(session, g) && session.inner == None
    ensures session.deadline == None
  {
    hide VaultRuns.MetaTableMatches, VaultRuns.EnrollmentsStored, VaultRuns.RowsMatch;
  }

  lemma ListsAll(v: Sessions.State, g: VaultRuns.Ideal, e: Env) returns (metas: seq<SecretMeta>)
    requires VaultRuns.Inv(v, g)
    requires RowOrder(v.tables, e.order) && Sessions.Observe(v, e.clock.check).Unlocked?
    ensures Sessions.ListSecrets(v, e.order, e.lower, e.clock.check).1 == Ok(metas)
    ensures forall id | id in g.contents :: g.contents[id].meta in metas
  {
    hide Sessions.ListSecrets, VaultRuns.Inv, Sessions.Observe, StableSort.Ordered;
    VaultSafety.ListIsEverythingByName(v, g, e.order, e.lower, e.clock.check);
    metas := Sessions.ListSecrets(v, e.order, e.lower, e.clock.check).1.value;
    forall id | id in g.contents ensures g.contents[id].meta in metas {
      KeyIsListed(v, g, e.order, id);
      var all := VaultRuns.MetasOf(g.contents, e.order);
      var k :| 0 <= k < |e.order| && e.order[k] == id;
      assert all[k] == g.contents[id].meta;
      assert g.contents[id].meta in multiset(all);
      assert g.contents[id].meta in multiset(metas);
    }
  }

  lemma KeyIsListed(v: Sessions.State, g: VaultRuns.Ideal, order: seq<Bytes>, id: Bytes)
    requires VaultRuns.Inv(v, g) && RowOrder(v.tables, order) && id in g.contents
    ensures id in order
  {
    hide VaultRuns.MetaTableMatches, VaultRuns.EnrollmentsStored, VaultRuns.Holds;
    assert id in v.tables.rows.Keys;
  }

  /** The popup shows the list that it hears: visible, unfiltered, ranked for the context, from the top. */
  predicate ShowsList(t: Popups.Tools, p: Popups.State, metas: seq<SecretMeta>, ctx: Fuzzy.SearchContext) {
    && p.visible && p.mode.ListMode? && p.query == "" && p.secrets == metas && p.context == ctx
    && p.ranked == Fuzzy.Rank(t.searcher, metas, "", ctx) && p.selected == 0
  }

  /** The popup hears the list of the vault and shows it. */
  lemma ListIsShown(t: Popups.Tools, s: State, host: Option<string>, application: Option<string>, metas: seq<SecretMeta>, state: UiLockState,
                    message: string)
    returns (actions: seq<Action>, s': State)
    requires s.events == [Show([], host, application), LockChanged(UiLocked), LockChanged(WaitingForTouch), LockChanged(state),
                          Refresh(metas), Status(message)]
    ensures Leads(t, s, actions, s') && SameDaemon(s, s') && s'.events == [Status(message)] && s'.confirmation == None
    ensures ShowsList(t, s'.ui, metas, Fuzzy.SearchContext(host, application)) && s'.ui.lockState == state
  {
    hide Leads, Fuzzy.Rank;
    var s1 := Hears(t, s);
    var s2 := Hears(t, s1);
    var s3 := Hears(t, s2);
    var s4 := Hears(t, s3);
    s' := Hears(t, s4);
    LeadsOn(t, s, [Hear(s.events[0])], s1, [Hear(s1.events[0])], s2);
    actions := [Hear(s.events[0])] + [Hear(s1.events[0])];
    LeadsOn(t, s, actions, s2, [Hear(s2.events[0])], s3);
    actions := actions + [Hear(s2.events[0])];
    LeadsOn(t, s, actions, s3, [Hear(s3.events[0])], s4);
    actions := actions + [Hear(s3.events[0])];
    LeadsOn(t, s, actions, s4, [Hear(s4.events[0])], s');
    actions := actions + [Hear(s4.events[0])];
  }

  /** With no context and a blank query, whatever is held has a row. */
  lemma HasARow(t: Popups.Tools, metas: seq<SecretMeta>, m: SecretMeta) returns (i: nat)
    requires m in metas
    ensures var r := Fuzzy.Rank(t.searcher, metas, "", Fuzzy.SearchContext(None, None)); i < |r| && r[i].meta == m
  {
    var ctx := Fuzzy.SearchContext(None, None);
    assert Chars.Trim("") == "";
    Fuzzy.EntryIsOf(t.searcher, "", ctx, m);
    var entry := Fuzzy.Entry(t.searcher, "", ctx, m).value;
    Fuzzy.RankMembers(t.searcher, metas, "", ctx, entry);
    hide Fuzzy.Rank;
    i :| 0 <= i < |Fuzzy.Rank(t.searcher, metas, "", ctx)| && Fuzzy.Rank(t.searcher, metas, "", ctx)[i] == entry;
  }

  // ---- A deletion ---------------------------------------------------------------------------------------

  /** A click on the cross of row `i`. */
  function Click(i: nat): Action {
    UiActs(Popups.ListFrame(false, None, (k: nat) => Popups.RowAction(false, false, k == i), 0))
  }

  lemma {:induction false} LastIsClicked(i: nat, n: nat)
    requires i < n
    ensures Popups.LastRow((k: nat) => Popups.RowAction(false, false, k == i), n, (r: Popups.RowAction) => r.deleted) == Some(i)
  {
    Popups.LastRowIsARow((k: nat) => Popups.RowAction(false, false, k == i), n, (r: Popups.RowAction) => r.deleted);
    var rows := (k: nat) => Popups.RowAction(false, false, k == i);
    assert rows(i).deleted;
  }

  /** The user clicks a row away and confirms it. */
  lemma Confirms(t: Popups.Tools, s: State, i: nat) returns (actions: seq<Action>, s': State)
    requires s.ui.visible && s.ui.mode.ListMode? && i < |s.ui.ranked| && s.confirmation == None && s.requests == []
    ensures Leads(t, s, actions, s')
    ensures s' == s.(ui := s'.ui, confirmation := None, requests := s'.requests, log := s'.log)
    ensures |s'.requests| == 1 && s'.requests[0].request == DeleteRequest(s.ui.ranked[i].meta.id)
    ensures s'.requests[0].warrant.openedAt == |s.log| && s'.requests[0].warrant.acceptedAt == |s.log| + 1
    ensures var m := s.ui.ranked[i].meta;
            s'.log == s.log + [ConfirmOpened(m.id, m.name, s.ui.ranked), ConfirmAccepted(|s.log|, m.id)]
  {
    hide Leads, Popups.LastRow;
    var m := s.ui.ranked[i].meta;
    LastIsClicked(i, |s.ui.ranked|);
    var s1 := Apply(t, s, Click(i));
    assert s1.ui == s.ui.(selected := i, mode := Popups.ConfirmDelete(m.id, m.name));
    assert Tag(s, []) == [] && s.requests + [] == s.requests;
    assert s1.requests == [] && s1.confirmation == Some(|s.log|) && s1.log == s.log + [ConfirmOpened(m.id, m.name, s.ui.ranked)];
    s' := Apply(t, s1, Enter());
    assert Popups.Step(t, s1.ui, Enter().step).sent == [DeleteRequest(m.id)];
    assert s'.requests == Tag(s1, [DeleteRequest(m.id)]);
    assert s'.log == s1.log + [ConfirmAccepted(|s.log|, m.id)]
                  == s.log + [ConfirmOpened(m.id, m.name, s.ui.ranked), ConfirmAccepted(|s.log|, m.id)];
    hide Apply, Enabled;
    LeadsOne(t, s, Click(i));
    LeadsThen(t, s, [Click(i)], s1, Enter());
    actions := [Click(i)] + [Enter()];
  }

  /** The worker locks the session for the request and awaits an assertion. */
  lemma Relocks(t: Popups.Tools, s: State, id: Uuid, e: Env) returns (actions: seq<Action>, s': State)
    requires s.worker == Idle && s.holder.None? && |s.requests| == 1 && s.requests[0].request == DeleteRequest(id)
    requires RowOrder(s.session.tables, e.order)
    ensures Leads(t, s, actions, s')
    ensures s'.worker == Awaiting(DeleteAct(s.requests[0].warrant.(id := id, relockedAt := |s.log|)), |s.threads|)
    ensures s' == s.(worker := s'.worker, requests := [], threads := s.threads + [Thread(false, |s.log| + 1, Wanting)],
                     session := Sessions.Lock(s.session), log := s.log + [Relocked(s.requests[0].warrant.acceptedAt, id)])
  {
    hide Leads, RowOrder, Perform, Resolve, Awaited, ThreadStep, ThreadEnabled, UiStep, UiEnabled;
    var s1 := Apply(t, s, TakeRequest);
    var s2 := Apply(t, s1, WorkerRuns(e));
    s' := Apply(t, s2, WorkerRuns(e));
    hide Apply, Enabled;
    LeadsOne(t, s, TakeRequest);
    LeadsThen(t, s, [TakeRequest], s1, WorkerRuns(e));
    LeadsThen(t, s, [TakeRequest] + [WorkerRuns(e)], s2, WorkerRuns(e));
    actions := [TakeRequest] + [WorkerRuns(e)] + [WorkerRuns(e)];
  }

  /** From a locked vault that holds a secret and that `who` unlocks, up to the point where the deletion of
      that secret waits for its assertion. */
  lemma DeletionIsAsked(t: Popups.Tools, session: Sessions.State, g: VaultRuns.Ideal, who: Authenticator, e: Env, now: int, id: Uuid)
    returns (actions: seq<Action>, s: State, w: Warrant)
    requires VaultRuns.Inv(session, g) && session.inner == None && session.timeout > 0 && id in g.contents
    requires RowOrder(session.tables, e.order) && Sessions.Unlock(session, who, now).1.Ok?
    ensures Leads(t, Start(session), actions, s) && w.id == id
    ensures s.worker == Awaiting(DeleteAct(w), 1) && s.holder == None && s.requests == [] && s.answers == []
    ensures |s.threads| == 2 && s.threads[1].at.Wanting? && !s.threads[1].claimed
    ensures s.session == session && |s.events| == 1 && s.events[0].Status?
  {
    hide Leads, RowOrder, Sessions.Unlock, VaultRuns.Inv, Fuzzy.Rank;
    var s0 := Start(session);
    var first, s1, state, metas := ListIsSent(t, session, g, who, e, now);
    UnlockGives(session, g, who, now);
    var showing, s2 := ListIsShown(t, s1, None, None, metas, state, e.message);
    var i := HasARow(t, metas, g.contents[id].meta);
    IdOf(session, g, id);
    var confirming, s3 := Confirms(t, s2, i);
    var relocking;
    relocking, s := Relocks(t, s3, id, e);
    w := s.worker.next.warrant;
    LeadsOn(t, s0, first, s1, showing, s2);
    LeadsOn(t, s0, first + showing, s2, confirming, s3);
    LeadsOn(t, s0, first + showing + confirming, s3, relocking, s);
    actions := first + showing + confirming + relocking;
  }

  lemma IdOf(session: Sessions.State, g: VaultRuns.Ideal, id: Bytes)
    requires VaultRuns.Inv(session, g) && id in g.contents
    ensures id in session.tables.rows && g.contents[id].meta.id == id
  {
    hide VaultRuns.MetaTableMatches, VaultRuns.EnrollmentsStored;
    assert id in session.tables.rows.Keys;
    assert VaultRuns.Holds(session.tables.rows[id], id, g.contents[id], g.roots);
  }

  /** Deletions do happen: every secret of every locked vault that some authenticator unlocks is deleted by
      some run. */
  lemma DeletionHappens(t: Popups.Tools, session: Sessions.State, g: VaultRuns.Ideal, who: Authenticator, e: Env, now: int, id: Uuid)
    returns (actions: seq<Action>, s: State)
    requires VaultRuns.Inv(session, g) && session.inner == None && session.timeout > 0 && id in g.contents
    requires RowOrder(session.tables, e.order) && Sessions.Unlock(session, who, now).1.Ok?
    ensures Leads(t, Start(session), actions, s)
    ensures id in session.tables.rows && s.session.tables.rows == session.tables.rows - {id}
    ensures s.log != [] && s.log[|s.log| - 1].Deleted? && s.log[|s.log| - 1].warrant.id == id
    ensures s.session == Sessions.Delete(Sessions.Unlock(session, who, now).0, id).0
    ensures s.worker == Acting(RefreshAct) && s.holder == None
  {
    hide Leads, RowOrder, Sessions.Unlock, VaultRuns.Inv;
    IdOf(session, g, id);
    UnlockGives(session, g, who, now);
    var asked, s1, w := DeletionIsAsked(t, session, g, who, e, now, id);
    var unlocking, s2 := Succeeds(t, s1, 1, who, now);
    var s3 := Apply(t, s2, WorkerRuns(e));
    s := Apply(t, s3, WorkerRuns(e));
    LeadsOn(t, Start(session), asked, s1, unlocking, s2);
    LeadsThen(t, Start(session), asked + unlocking, s2, WorkerRuns(e));
    LeadsThen(t, Start(session), asked + unlocking + [WorkerRuns(e)], s3, WorkerRuns(e));
    actions := asked + unlocking + [WorkerRuns(e)] + [WorkerRuns(e)];
  }

  /** The deletion's assertion waits for its PIN, which the user has typed: the answer stands among the
      requests of the worker, and the worker waits for the assertion. */
  lemma AwaitedPinStands(t: Popups.Tools, session: Sessions.State, g: VaultRuns.Ideal, who: Authenticator, e: Env, now: int, id: Uuid,
                         pin: string)
    returns (actions: seq<Action>, s: State)
    requires VaultRuns.Inv(session, g) && session.inner == None && session.timeout > 0 && id in g.contents
    requires RowOrder(session.tables, e.order) && Sessions.Unlock(session, who, now).1.Ok? && pin != ""
    ensures Leads(t, Start(session), actions, s)
    ensures s.worker.Awaiting? && s.worker.thread == 1 && s.worker.next.DeleteAct? && s.worker.next.warrant.id == id
    ensures |s.threads| == 2 && !s.threads[1].claimed && s.threads[1].at.Asserting? && s.threads[1].at.pin.Waiting?
    ensures s.answers == [] && |s.requests| == 1 && s.requests[0].request == PinResponse(Some(pin))
    ensures forall a | Enabled(s, a) :: !a.TakeRequest? && !a.WorkerRuns? && !a.ReceivePin?
  {
    hide Leads, RowOrder, Sessions.Unlock, VaultRuns.Inv;
    var asked, s1, w := DeletionIsAsked(t, session, g, who, e, now, id);
    var asking := Asks(t, s1, 1);
    var s2 := Asked(s1, 1);
    var answering;
    answering, s := IsAnswered(t, s2, pin);
    LeadsOn(t, Start(session), asked, s1, asking, s2);
    LeadsOn(t, Start(session), asked + asking, s2, answering, s);
    actions := asked + asking + answering;
  }

  // ---- A list for a hidden popup ----------------------------------------------------------------------------

  lemma Hides(t: Popups.Tools, s: State) returns (s': State)
    requires s.ui.visible
    ensures Leads(t, s, [UiActs(Popups.ForceHide)], s')
    ensures !s'.ui.visible && s'.events == s.events
  {
    hide Leads;
    s' := Apply(t, s, UiActs(Popups.ForceHide));
    hide Apply, Enabled;
    LeadsOne(t, s, UiActs(Popups.ForceHide));
  }

  /** The popup is dismissed while the authenticator is touched: when the list comes, the hidden popup keeps
      it. */
  lemma HiddenPopupKeepsTheList(t: Popups.Tools, session: Sessions.State, g: VaultRuns.Ideal, who: Authenticator, e: Env, now: int,
                                id: Uuid)
    returns (actions: seq<Action>, s: State)
    requires VaultRuns.Inv(session, g) && session.inner == None && session.timeout > 0 && id in g.contents
    requires RowOrder(session.tables, e.order) && Sessions.Unlock(session, who, now).1.Ok?
    ensures Leads(t, Start(session), actions, s)
    ensures !s.ui.visible && g.contents[id].meta in s.ui.secrets
  {
    hide Leads, RowOrder, Sessions.Unlock, VaultRuns.Inv, Fuzzy.Rank;
    var s0 := Start(session);
    var first, s1, state, metas := ListIsSent(t, session, g, who, e, now);
    var s2 := Hears(t, s1);
    var s3 := Hides(t, s2);
    var s4 := Hears(t, s3);
    var s5 := Hears(t, s4);
    var s6 := Hears(t, s5);
    s := Hears(t, s6);
    LeadsOn(t, s0, first, s1, [Hear(s1.events[0])], s2);
    actions := first + [Hear(s1.events[0])];
    LeadsOn(t, s0, actions, s2, [UiActs(Popups.ForceHide)], s3);
    actions := actions + [UiActs(Popups.ForceHide)];
    LeadsOn(t, s0, actions, s3, [Hear(s3.events[0])], s4);
    actions := actions + [Hear(s3.events[0])];
    LeadsOn(t, s0, actions, s4, [Hear(s4.events[0])], s5);
    actions := actions + [Hear(s4.events[0])];
    LeadsOn(t, s0, actions, s5, [Hear(s5.events[0])], s6);
    actions := actions + [Hear(s5.events[0])];
    LeadsOn(t, s0, actions, s6, [Hear(s6.events[0])], s);
    actions := actions + [Hear(s6.events[0])];
  }
}
