/** The idle timeout in the daemon: what it bounds, and where a touch gets round it (`daemon.rs`,
    `vault/session.rs`). */
module DaemonTime {
  import opened Common
  import opened Keys
  import opened Messages
  import opened Protocol
  import opened DaemonRuns
  import opened DaemonVault
  import Db
  import Fuzzy
  import Popups
  import Sessions
  import Symbolic
  import TimedSafety
  import VaultRuns
  import VaultSafety

  // ---- What is revealed is revealed in time -----------------------------------------------

  /** The step sends something of the vault to the popup, or opens a secret to type it. */
  ghost predicate Reveals(s: State, s': State) {
    OpensToType(s, s') || exists k :: |s.events| <= k < |s'.events| && Revealing(s'.events[k])
  }

  /** `op` is checked at the first reading of the clock and gets past its check. */
  ghost predicate PassesAt(v: Sessions.State, op: VaultRuns.Op, at: int) {
    && VaultRuns.Possible(v, op) && TimedSafety.Reaches(v.tables.rows.Keys, op)
    && TimedSafety.CheckedAt(op) == Some(at) && TimedSafety.Instants(op) == [at]
    && TimedSafety.Passed(VaultRuns.Step(v, op).1)
  }

  lemma ListPasses(v: Sessions.State, e: Env)
    requires Db.RowOrder(v.tables, e.order)
    ensures Sessions.ListSecrets(v, e.order, e.lower, e.clock.check).1.Ok? ==>
              PassesAt(v, VaultRuns.ListOp(e.order, e.lower, e.clock.check), e.clock.check)
  {
    hide Sessions.ListSecrets, Db.RowOrder;
  }

  lemma MetaPasses(v: Sessions.State, id: Symbolic.Uuid, e: Env)
    ensures Sessions.MetaFor(v, id, e.clock.check).1.Ok? ==>
              PassesAt(v, VaultRuns.MetaForOp(id, e.clock.check), e.clock.check)
  {
  }

  lemma OpenPasses(v: Sessions.State, id: Symbolic.Uuid, clock: Sessions.Clock)
    ensures Sessions.OpenSecret(v, id, clock).1.Ok? ==> PassesAt(v, VaultRuns.MetaForOp(id, clock.check), clock.check)
  {
  }

  lemma ActPasses(s: State, act: Act, e: Env) returns (op: VaultRuns.Op)
    requires Db.RowOrder(s.session.tables, e.order) && Reveals(s, Perform(s, act, e))
    ensures PassesAt(s.session, op, e.clock.check)
  {
    hide PassesAt, Db.RowOrder, Sessions.ListSecrets, Sessions.OpenSecret, Sessions.MetaFor, Sessions.Add, Sessions.Update,
      Sessions.Delete, Sessions.Touch, Sessions.Lock;
    ListPasses(s.session, e);
    op := VaultRuns.ListOp(e.order, e.lower, e.clock.check);
    if act.EditAct? {
      MetaPasses(s.session, act.id, e);
      op := VaultRuns.MetaForOp(act.id, e.clock.check);
    } else if act.UseAct? {
      OpenPasses(s.session, act.id, e.clock);
      op := VaultRuns.MetaForOp(act.id, e.clock.check);
    }
  }

  lemma WorkerPasses(s: State, e: Env) returns (op: VaultRuns.Op)
    requires WorkerEnabled(s) && Db.RowOrder(s.session.tables, e.order) && Reveals(s, WorkerStep(s, e))
    ensures PassesAt(s.session, op, e.clock.check)
  {
    hide PassesAt, Db.RowOrder, Perform, Sessions.Tick, Sessions.Lock;
    assert s.worker.Acting?;
    op := ActPasses(s, s.worker.act, e);
  }

  lemma ThreadPasses(s: State, a: Action) returns (op: VaultRuns.Op)
    requires ThreadEnabled(s, a) && Reveals(s, ThreadStep(s, a))
    ensures a.TailRuns? && PassesAt(s.session, op, a.env.clock.check)
  {
    hide PassesAt, Db.RowOrder, Sessions.Unlock, Sessions.ListSecrets, Sessions.Tick;
    assert a.TailRuns? && s.threads[a.thread].at.TailRefresh?;
    ListPasses(s.session, a.env);
    op := VaultRuns.ListOp(a.env.order, a.env.lower, a.env.clock.check);
  }

  /** The step that reveals reads the clock first when it checks the lock. */
  lemma RevealingPasses(t: Popups.Tools, s: State, a: Action) returns (op: VaultRuns.Op)
    requires Enabled(s, a) && !a.UiActs? && Reveals(s, Apply(t, s, a))
    ensures Readings(a) != [] && PassesAt(s.session, op, Readings(a)[0])
  {
    hide PassesAt, Db.RowOrder, ThreadStep, ThreadEnabled, WorkerStep, WorkerEnabled;
    if a.WorkerRuns? {
      op := WorkerPasses(s, a.env);
    } else {
      op := ThreadPasses(s, a);
    }
  }

  lemma {:induction false} ClockSplit(actions: seq<Action>, a: Action, start: int)
    requires DaemonClock(actions + [a], start)
    ensures DaemonClock(actions, start) && TimedSafety.Rises([LastReading(actions, start)] + Readings(a))
    decreases |actions|
  {
    hide TimedSafety.Rises, Readings, Last;
    if actions == [] {
      assert actions + [a] == [a];
    } else {
      assert (actions + [a])[1..] == actions[1..] + [a];
      ClockSplit(actions[1..], a, Last(Readings(actions[0]), start));
    }
  }

  lemma OneMoreReading(ops: seq<VaultRuns.Op>, op: VaultRuns.Op, at: int, start: int, last: int, times: seq<int>)
    requires TimedSafety.ClockRuns(ops, start) && TimedSafety.LatestOf(ops, start) <= last
    requires TimedSafety.Instants(op) == [at] && times != [] && times[0] == at && TimedSafety.Rises([last] + times)
    ensures TimedSafety.ClockRuns(ops + [op], start)
  {
    assert ([last] + times)[0] == last && ([last] + times)[1] == at;
    var now := TimedSafety.LatestOf(ops, start);
    assert [now] + TimedSafety.Instants(op) == [now, at];
    assert [op][1..] == [];
    assert TimedSafety.ClockRuns([op], now);
    ClockConcat(ops, [op], start);
  }

  lemma RunThenStep(v: Sessions.State, ops: seq<VaultRuns.Op>, v': Sessions.State, op: VaultRuns.Op)
    requires Runs(v, ops, v') && VaultRuns.Possible(v', op)
    ensures VaultSafety.ValidRun(v, ops + [op])
    ensures VaultSafety.Outcomes(v, ops + [op])[|ops|] == VaultRuns.Step(v', op).1
  {
    hide VaultRuns.Step, VaultRuns.Possible;
    RunsOne(v', op);
    RunsBoth(v, ops, v', [op], VaultRuns.Step(v', op).0);
    VaultSafety.RunConcat(v, ops, [op]);
  }

  // ---- The history of a run ------------------------------------------------------------------------

  /** What a step shows of the unlock window. */
  ghost function StepEvents(t: Popups.Tools, s: State, a: Action): seq<TimedSafety.Event>
    requires Enabled(s, a)
  {
    StepRunsVault(t, s, a);
    TimedSafety.Events(s.session, StepOps(s, a))
  }

  /** What a whole run shows of it, step by step. */
  ghost function History(t: Popups.Tools, s: State, actions: seq<Action>): seq<TimedSafety.Event>
    requires ValidRun(t, s, actions)
    decreases |actions|
  {
    if actions == [] then []
    else StepEvents(t, s, actions[0]) + History(t, Apply(t, s, actions[0]), actions[1..])
  }

  lemma EventsConcat(v: Sessions.State, a: seq<VaultRuns.Op>, v': Sessions.State, b: seq<VaultRuns.Op>)
    requires Runs(v, a, v') && VaultSafety.ValidRun(v', b)
    ensures VaultSafety.ValidRun(v, a + b)
    ensures TimedSafety.Events(v, a + b) == TimedSafety.Events(v, a) + TimedSafety.Events(v', b)
  {
    hide VaultRuns.Step, VaultRuns.Possible, TimedSafety.EventOf;
    RunsBoth(v, a, v', b, VaultSafety.Run(v', b));
    VaultSafety.RunConcat(v, a, b);
  }

  /** That is the vault's own history of the operations of the run. */
  lemma {:induction false} HistoryOfTheVault(t: Popups.Tools, s: State, actions: seq<Action>)
    requires ValidRun(t, s, actions)
    ensures VaultSafety.ValidRun(s.session, RunOps(t, s, actions))
    ensures History(t, s, actions) == TimedSafety.Events(s.session, RunOps(t, s, actions))
    decreases |actions|
  {
    hide Apply, Enabled, StepOps, TimedSafety.Events, VaultSafety.Run, VaultSafety.ValidRun;
    if actions == [] {
      NoEvents(s.session);
    } else {
      var s1 := Apply(t, s, actions[0]);
      StepRunsVault(t, s, actions[0]);
      HistoryOfTheVault(t, s1, actions[1..]);
      EventsConcat(s.session, StepOps(s, actions[0]), s1.session, RunOps(t, s1, actions[1..]));
    }
  }

  lemma NoEvents(v: Sessions.State)
    ensures VaultSafety.ValidRun(v, []) && TimedSafety.Events(v, []) == []
  {
  }

  /** The timeout holds over whole runs of the daemon. Under a nondecreasing clock, metadata or plaintext
      is sent to the popup, or opened to be typed, only within the timeout of the latest renewal, in the history of the run, of an
      unlock that nothing locked since. */
  lemma RevealsInsideTheWindow(t: Popups.Tools, session: Sessions.State, g: VaultRuns.Ideal, start: int,
                               actions: seq<Action>, a: Action)
    requires VaultRuns.Inv(session, g) && session.inner == None
    requires ValidRun(t, Start(session), actions) && Enabled(Run(t, Start(session), actions), a) && !a.UiActs?
    requires DaemonClock(actions + [a], start)
    ensures var s := Run(t, Start(session), actions);
            var w := TimedSafety.Window(History(t, Start(session), actions));
            Reveals(s, Apply(t, s, a)) ==>
              Readings(a) != [] && w.Some? && w.value <= Readings(a)[0] < w.value + s.session.timeout
  {
    var s := Run(t, Start(session), actions);
    if Reveals(s, Apply(t, s, a)) {
      RevealsInTime(t, session, g, start, actions, a);
    }
  }

  lemma RevealsInTime(t: Popups.Tools, session: Sessions.State, g: VaultRuns.Ideal, start: int,
                      actions: seq<Action>, a: Action)
    requires VaultRuns.Inv(session, g) && session.inner == None
    requires ValidRun(t, Start(session), actions) && Enabled(Run(t, Start(session), actions), a) && !a.UiActs?
    requires DaemonClock(actions + [a], start)
    requires Reveals(Run(t, Start(session), actions), Apply(t, Run(t, Start(session), actions), a))
    ensures var w := TimedSafety.Window(History(t, Start(session), actions));
            Readings(a) != [] && w.Some? && w.value <= Readings(a)[0] < w.value + Run(t, Start(session), actions).session.timeout
  {
    hide ValidRun, Run, Apply, Enabled, Reveals, Readings, DaemonClock, LastReading, VaultRuns.Inv, VaultRuns.Step, VaultRuns.Possible,
      TimedSafety.Window, TimedSafety.Events, TimedSafety.ClockRuns, TimedSafety.Rises, TimedSafety.LatestOf, TimedSafety.Passed,
      TimedSafety.Reaches, TimedSafety.CheckedAt, TimedSafety.Instants, VaultSafety.Outcomes, VaultSafety.ValidRun, VaultSafety.Run,
      History, RunOps;
    var s, ops := Run(t, Start(session), actions), RunOps(t, Start(session), actions);
    var op := RevealingPasses(t, s, a);
    ClockSplit(actions, a, start);
    DaemonRunsVault(t, Start(session), actions, start);
    HistoryOfTheVault(t, Start(session), actions);
    OneMoreReading(ops, op, Readings(a)[0], start, LastReading(actions, start), Readings(a));
    RunThenStep(session, ops, s.session, op);
    LockedWindow(session, g, start);
    TimedSafety.PassesExactlyInsideTheWindow(session, g, [], start, ops, op);
    assert [] + TimedSafety.Events(session, ops) == TimedSafety.Events(session, ops);
  }

  /** The step unlocks or renews, at this instant. */
  ghost predicate RenewsAt(t: Popups.Tools, s: State, a: Action, at: int)
    requires Enabled(s, a)
  {
    exists k :: 0 <= k < |StepEvents(t, s, a)| && StepEvents(t, s, a)[k] in {TimedSafety.Opened(at), TimedSafety.Renewed(at)}
  }

  /** The instant at which an operation renews the window, if it does. */
  function RenewalOf(op: VaultRuns.Op): Option<int> {
    match op
    case UnlockOp(_, now) => Some(now)
    case TouchOp(now) => Some(now)
    case EnrollOp(_, _, _, clock) => Some(clock.renew)
    case OpenOp(_, clock) => Some(clock.renew)
    case AddOp(_, _, _, clock) => Some(clock.renew)
    case UpdateOp(_, _, _, clock) => Some(clock.renew)
    case _ => None
  }

  lemma EventNamesRenewal(op: VaultRuns.Op, outcome: VaultRuns.Outcome, at: int)
    requires TimedSafety.EventOf(op, outcome) in {TimedSafety.Opened(at), TimedSafety.Renewed(at)}
    ensures RenewalOf(op) == Some(at) && (op.UnlockOp? ==> outcome.Done? && outcome.done.Ok?)
  {
  }

  lemma StepOpRenews(s: State, a: Action, k: nat, at: int)
    requires k < |StepOps(s, a)| && RenewalOf(StepOps(s, a)[k]) == Some(at)
    ensures (a.Finish? && a.now == at && StepOps(s, a) == [VaultRuns.UnlockOp(a.who, a.now)])
         || (a.WorkerRuns? && s.worker.Acting?
             && ((s.worker.act.TouchAct? && at == a.env.clock.check)
                 || ((s.worker.act.UseAct? || s.worker.act.EditAct? || s.worker.act.SaveAct?) && at == a.env.clock.renew)))
  {
  }

  lemma FirstOutcome(v: Sessions.State, op: VaultRuns.Op)
    requires VaultRuns.Possible(v, op)
    ensures VaultSafety.ValidRun(v, [op]) && VaultSafety.Outcomes(v, [op])[0] == VaultRuns.Step(v, op).1
  {
    hide VaultRuns.Step, VaultRuns.Possible;
    RunsOne(v, op);
  }

  /** Only the end of an assertion that unlocks, a touch, and the use, edit or save of a secret do. */
  lemma RenewalsAre(t: Popups.Tools, s: State, a: Action, at: int)
    requires Enabled(s, a) && RenewsAt(t, s, a, at)
    ensures (a.Finish? && a.now == at && Sessions.Unlock(s.session, a.who, at).1.Ok?)
         || (a.WorkerRuns? && s.worker.Acting?
             && ((s.worker.act.TouchAct? && at == a.env.clock.check)
                 || ((s.worker.act.UseAct? || s.worker.act.EditAct? || s.worker.act.SaveAct?) && at == a.env.clock.renew)))
  {
    hide Enabled, StepOps, TimedSafety.EventOf, VaultRuns.Step, Sessions.Unlock, VaultSafety.Outcomes;
    StepRunsVault(t, s, a);
    var ops := StepOps(s, a);
    var k :| 0 <= k < |ops| && TimedSafety.Events(s.session, ops)[k] in {TimedSafety.Opened(at), TimedSafety.Renewed(at)};
    EventNamesRenewal(ops[k], VaultSafety.Outcomes(s.session, ops)[k], at);
    StepOpRenews(s, a, k, at);
    if a.Finish? {
      FirstOutcome(s.session, ops[0]);
      UnlockOutcome(s.session, a.who, at);
    }
  }

  lemma UnlockOutcome(v: Sessions.State, who: Authenticator, now: int)
    ensures VaultRuns.Step(v, VaultRuns.UnlockOp(who, now)).1 == VaultRuns.Done(Sessions.Unlock(v, who, now).1)
  {
    hide Sessions.Unlock;
  }

  lemma {:induction false} WindowSplit(h: seq<TimedSafety.Event>, es: seq<TimedSafety.Event>)
    requires TimedSafety.Window(h + es).Some?
    ensures var at := TimedSafety.Window(h + es).value;
            || (exists k :: 0 <= k < |es| && es[k] in {TimedSafety.Opened(at), TimedSafety.Renewed(at)})
            || (TimedSafety.Window(h) == Some(at) && TimedSafety.Closed !in es)
    decreases |es|
  {
    if es == [] {
      assert h + es == h;
    } else {
      var n := |es| - 1;
      assert (h + es)[..|h| + n] == h + es[..n] && (h + es)[|h| + n] == es[n];
      if es[n].Quiet? {
        WindowSplit(h, es[..n]);
        assert es == es[..n] + [es[n]];
      }
    }
  }

  lemma {:induction false} HistorySnoc(t: Popups.Tools, s: State, actions: seq<Action>)
    requires ValidRun(t, s, actions) && actions != []
    ensures var n := |actions| - 1;
            && ValidRun(t, s, actions[..n]) && Enabled(StateAt(t, s, actions, n), actions[n])
            && History(t, s, actions) == History(t, s, actions[..n]) + StepEvents(t, StateAt(t, s, actions, n), actions[n])
    decreases |actions|
  {
    hide Apply, Enabled, StepEvents;
    var n := |actions| - 1;
    StateAtPrefix(t, s, actions, n);
    StatesOfRun(t, s, actions, n);
    if n > 0 {
      var s1 := Apply(t, s, actions[0]);
      HistorySnoc(t, s1, actions[1..]);
      assert actions[..n][1..] == actions[1..][..n - 1];
    }
  }

  /** An open window is a step of the run: at its instant that step unlocked or renewed, and no later step
      closed it. */
  lemma {:induction false} WindowIsAStep(t: Popups.Tools, s: State, actions: seq<Action>) returns (j: nat)
    requires ValidRun(t, s, actions) && TimedSafety.Window(History(t, s, actions)).Some?
    ensures forall k: nat | k < |actions| :: Enabled(StateAt(t, s, actions, k), actions[k])
    ensures j < |actions| && RenewsAt(t, StateAt(t, s, actions, j), actions[j], TimedSafety.Window(History(t, s, actions)).value)
    ensures forall k: nat | j < k < |actions| :: TimedSafety.Closed !in StepEvents(t, StateAt(t, s, actions, k), actions[k])
    decreases |actions|
  {
    hide Apply, Enabled, StepEvents, StateAt;
    var n := |actions| - 1;
    HistorySnoc(t, s, actions);
    StateAtPrefix(t, s, actions, n);
    forall k: nat | k < |actions| ensures Enabled(StateAt(t, s, actions, k), actions[k]) {
      StatesOfRun(t, s, actions, k);
    }
    var es := StepEvents(t, StateAt(t, s, actions, n), actions[n]);
    WindowSplit(History(t, s, actions[..n]), es);
    var at := TimedSafety.Window(History(t, s, actions)).value;
    if RenewsAt(t, StateAt(t, s, actions, n), actions[n], at) {
      j := n;
    } else {
      j := WindowIsAStep(t, s, actions[..n]);
    }
  }

  lemma LockedWindow(session: Sessions.State, g: VaultRuns.Ideal, start: int)
    requires VaultRuns.Inv(session, g) && session.inner == None
    ensures TimedSafety.DeadlineIs(g, []) && TimedSafety.WindowBy([], start)
  {
    hide VaultRuns.MetaTableMatches, VaultRuns.EnrollmentsStored, VaultRuns.RowsMatch;
  }

  // ---- A touch does not tick --------------------------------------------------------------------

  /** The arrow key pressed with nothing else. */
  function ArrowUp(now: int): Action {
    UiActs(Popups.TickStep(Popups.NoKeys().(up := true), Popups.Chance(Db.Nil(), now)))
  }

  function ShowEmpty(): Action {
    UiActs(Popups.EventStep(Show([], None, None)))
  }

  function Touched(who: Authenticator, now: int): seq<Action> {
    [Acquire(0)] + [Finish(0, who, now)] + [ShowEmpty()] + [ArrowUp(now)] + [TakeRequest]
  }

  /** The unlock succeeds, the popup shows its list, and an arrow key asks for a touch. */
  lemma UnlockThenTouch(t: Popups.Tools, session: Sessions.State, who: Authenticator, now: int) returns (s': State)
    requires Sessions.Unlock(session, who, now).1.Ok?
    ensures Leads(t, Pending(Start(session)), Touched(who, now), s')
    ensures s'.session == Sessions.Unlock(session, who, now).0 && s'.worker == Acting(TouchAct) && s'.holder == None
  {
    hide Leads, Db.RowOrder, Sessions.Unlock, Fuzzy.Rank, WorkerStep, WorkerEnabled, TailStep;
    var s0 := Pending(Start(session));
    var s1 := Apply(t, s0, Acquire(0));
    var s2 := Apply(t, s1, Finish(0, who, now));
    assert s2.session == Sessions.Unlock(session, who, now).0 && s2.holder == None && s2.events[0] == Show([], None, None);
    assert s2.ui == Popups.Initial() && s2.requests == [] && s2.worker == Idle && s2.confirmation == None;
    var s3 := ShowsTheList(t, s2);
    var s4 := AsksForTouch(t, s3, now);
    s' := Apply(t, s4, TakeRequest);
    hide Apply, Enabled, Pending;
    LeadsOne(t, s0, Acquire(0));
    LeadsThen(t, s0, [Acquire(0)], s1, Finish(0, who, now));
    LeadsThen(t, s0, [Acquire(0)] + [Finish(0, who, now)], s2, ShowEmpty());
    LeadsThen(t, s0, [Acquire(0)] + [Finish(0, who, now)] + [ShowEmpty()], s3, ArrowUp(now));
    LeadsThen(t, s0, [Acquire(0)] + [Finish(0, who, now)] + [ShowEmpty()] + [ArrowUp(now)], s4, TakeRequest);
  }

  lemma ShowsTheList(t: Popups.Tools, s: State) returns (s': State)
    requires s.events != [] && s.events[0] == Show([], None, None) && s.requests == [] && !s.ui.mode.ConfirmDelete?
    ensures Enabled(s, ShowEmpty()) && s' == Apply(t, s, ShowEmpty())
    ensures s'.ui.visible && s'.ui.mode.ListMode? && s'.requests == []
    ensures s'.session == s.session && s'.worker == s.worker && s'.holder == s.holder
  {
    hide Fuzzy.Rank;
    s' := Apply(t, s, ShowEmpty());
    assert Tag(s, []) == [];
  }

  lemma AsksForTouch(t: Popups.Tools, s: State, now: int) returns (s': State)
    requires s.ui.visible && s.ui.mode.ListMode? && s.requests == []
    ensures Enabled(s, ArrowUp(now)) && s' == Apply(t, s, ArrowUp(now))
    ensures s'.requests != [] && s'.requests[0].request == TouchRequest
    ensures s'.session == s.session && s'.worker == s.worker && s'.holder == s.holder
  {
    hide Fuzzy.Rank;
    s' := Apply(t, s, ArrowUp(now));
    assert Popups.Step(t, s.ui, ArrowUp(now).step).sent == [TouchRequest] + [];
    assert s'.requests == Tag(s, [TouchRequest] + []);
  }

  lemma {:induction false} SteadyClock(actions: seq<Action>, now: int)
    requires forall i | 0 <= i < |actions| :: Readings(actions[i]) in {[], [now], [now, now]}
    ensures DaemonClock(actions, now) && LastReading(actions, now) == now
    decreases |actions|
  {
    if actions != [] {
      SteadyClock(actions[1..], now);
    }
  }

  lemma {:induction false} ClockJoin(actions: seq<Action>, a: Action, start: int)
    requires DaemonClock(actions, start) && TimedSafety.Rises([LastReading(actions, start)] + Readings(a))
    ensures DaemonClock(actions + [a], start)
    decreases |actions|
  {
    hide TimedSafety.Rises, Readings, Last;
    if actions == [] {
      assert actions + [a] == [a] && [a][1..] == [];
    } else {
      assert (actions + [a])[1..] == actions[1..] + [a];
      ClockJoin(actions[1..], a, Last(Readings(actions[0]), start));
    }
  }

  /** The daemon before a touch, when it comes late. */
  function LateTouch(e: Env, late: int): Action {
    WorkerRuns(e.(clock := Sessions.Clock(late, late)))
  }

  /** A missed tick does extend the window. From every locked vault that an authenticator unlocks, a run
      of the daemon under a nondecreasing clock comes to a session whose deadline has passed, and an arrow
      key makes it usable again without an assertion. */
  lemma LateTouchRevives(t: Popups.Tools, session: Sessions.State, who: Authenticator, e: Env, now: int, late: int)
    returns (before: seq<Action>)
    requires session.inner == None && session.timeout > 0 && Sessions.Unlock(session, who, now).1.Ok?
    requires Db.RowOrder(session.tables, e.order) && late >= now + session.timeout
    ensures ValidRun(t, Start(session), before) && DaemonClock(before + [LateTouch(e, late)], now)
    ensures var s := Run(t, Start(session), before);
            && Enabled(s, LateTouch(e, late))
            && Sessions.Observe(s.session, late) == Sessions.Locked
            && Sessions.Observe(Apply(t, s, LateTouch(e, late)).session, late).Unlocked?
  {
    hide Apply, Enabled, Start, ValidRun, Run, Sessions.Unlock, Sessions.Observe, Db.RowOrder, DaemonClock, LateTouch, HotkeyOn, Touched, PendingFor;
    var early := e.(clock := Sessions.Clock(now, now));
    before := Hotkey(early) + Touched(who, now);
    StartsIdle(session);
    HotkeyStartsAnUnlock(t, Start(session), early, None, None);
    var s := UnlockThenTouch(t, session, who, now);
    LeadsOn(t, Start(session), Hotkey(early), Pending(Start(session)), Touched(who, now), s);
    LateClock(e, who, now, late);
    UnlockSetsTheDeadline(session, who, now);
    TouchesLate(t, s, e, late);
  }

  lemma StartsIdle(session: Sessions.State)
    ensures var s := Start(session); s.worker.Idle? && !s.inFlight && s.holder.None? && s.session == session
  {
  }

  lemma LateClock(e: Env, who: Authenticator, now: int, late: int)
    requires late >= now
    ensures DaemonClock(Hotkey(e.(clock := Sessions.Clock(now, now))) + Touched(who, now) + [LateTouch(e, late)], now)
  {
    var before := Hotkey(e.(clock := Sessions.Clock(now, now))) + Touched(who, now);
    SteadyClock(before, now);
    assert [now] + Readings(LateTouch(e, late)) == [now, late, late];
    ClockJoin(before, LateTouch(e, late), now);
  }

  lemma UnlockSetsTheDeadline(session: Sessions.State, who: Authenticator, now: int)
    requires Sessions.Unlock(session, who, now).1.Ok?
    ensures var s := Sessions.Unlock(session, who, now).0;
            s.inner.Some? && s.deadline == Some(now + session.timeout) && s.timeout == session.timeout && s.tables == session.tables
  {
    VaultSafety.FailedUnlockChangesNothing(session, who, now);
    hide Sessions.Unlock;
  }

  lemma TouchesLate(t: Popups.Tools, s: State, e: Env, late: int)
    requires s.worker == Acting(TouchAct) && s.holder == None && Db.RowOrder(s.session.tables, e.order)
    requires s.session.inner.Some? && s.session.deadline.Some? && s.session.deadline.value <= late && s.session.timeout > 0
    ensures Enabled(s, LateTouch(e, late)) && Sessions.Observe(s.session, late) == Sessions.Locked
    ensures Sessions.Observe(Apply(t, s, LateTouch(e, late)).session, late).Unlocked?
  {
    hide Db.RowOrder;
    VaultSafety.TouchRevivesExactly(s.session, late);
  }
}
