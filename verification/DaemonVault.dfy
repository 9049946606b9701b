/** The daemon's interleavings and the vault: every run of the one is a run of the other, and nothing of
    the vault is shown before an assertion has unlocked it (`daemon.rs`, `vault/session.rs`). */
module DaemonVault {
  import opened Common
  import opened Symbolic
  import opened Model
  import opened Db
  import opened Messages
  import opened SharedState
  import opened Protocol
  import opened ProtocolSafety
  import Editors
  import Fuzzy
  import Popups
  import Sessions
  import TimedSafety
  import VaultRuns
  import VaultSafety

  // ---- Every run of the daemon is a run of the vault ----------------------------------------

  /** The vault goes from `s` to `s'` by `ops`. */
  ghost predicate Runs(s: Sessions.State, ops: seq<VaultRuns.Op>, s': Sessions.State) {
    VaultSafety.ValidRun(s, ops) && VaultSafety.Run(s, ops) == s'
  }

  lemma RunsNothing(s: Sessions.State)
    ensures Runs(s, [], s)
  {
  }

  lemma RunsOne(s: Sessions.State, op: VaultRuns.Op)
    requires VaultRuns.Possible(s, op)
    ensures Runs(s, [op], VaultRuns.Step(s, op).0)
  {
    hide VaultRuns.Step, VaultRuns.Possible;
    RunsNothing(VaultRuns.Step(s, op).0);
    assert [op][0] == op && [op][1..] == [];
  }

  lemma {:induction false} RunsBoth(s: Sessions.State, a: seq<VaultRuns.Op>, s1: Sessions.State, b: seq<VaultRuns.Op>, s2: Sessions.State)
    requires Runs(s, a, s1) && Runs(s1, b, s2)
    ensures Runs(s, a + b, s2)
    decreases |a|
  {
    hide VaultRuns.Step, VaultRuns.Possible;
    if a == [] {
      assert a + b == b;
    } else {
      assert (a + b)[1..] == a[1..] + b;
      RunsBoth(VaultRuns.Step(s, a[0]).0, a[1..], s1, b, s2);
    }
  }

  // ---- The clock of the daemon ------------------------------------------------------------

  /** The instants that one action reads off the clock. */
  function Readings(a: Action): seq<int> {
    match a
    case WorkerRuns(e) => [e.clock.check, e.clock.renew]
    case TailRuns(_, e) => [e.clock.check, e.clock.renew]
    case Finish(_, _, now) => [now]
    case _ => []
  }

  function Last(times: seq<int>, now: int): int {
    if times == [] then now else times[|times| - 1]
  }

  /** A nondecreasing clock that reads at least `now` at the start. */
  ghost predicate DaemonClock(actions: seq<Action>, now: int)
    decreases |actions|
  {
    actions != [] ==>
      && TimedSafety.Rises([now] + Readings(actions[0]))
      && DaemonClock(actions[1..], Last(Readings(actions[0]), now))
  }

  function LastReading(actions: seq<Action>, now: int): int
    decreases |actions|
  {
    if actions == [] then now else LastReading(actions[1..], Last(Readings(actions[0]), now))
  }

  /** The operations run by a clock that makes these readings. */
  ghost predicate InTime(ops: seq<VaultRuns.Op>, times: seq<int>) {
    forall now | TimedSafety.Rises([now] + times) ::
      TimedSafety.ClockRuns(ops, now) && TimedSafety.LatestOf(ops, now) <= Last(times, now)
  }

  lemma NoneInTime(times: seq<int>)
    ensures InTime([], times)
  {
    forall now | TimedSafety.Rises([now] + times) ensures now <= Last(times, now) {
      assert ([now] + times)[0] == now && ([now] + times)[|times|] == Last(times, now);
    }
  }

  lemma OneInTime(op: VaultRuns.Op, times: seq<int>)
    requires TimedSafety.Instants(op) <= times
    ensures InTime([op], times)
  {
    NoneInTime(times);
    var own := TimedSafety.Instants(op);
    forall now | TimedSafety.Rises([now] + times)
      ensures TimedSafety.ClockRuns([op], now) && TimedSafety.LatestOf([op], now) <= Last(times, now)
    {
      assert forall i | 0 <= i < |own| + 1 :: ([now] + own)[i] == ([now] + times)[i];
      assert ([now] + times)[|times|] == Last(times, now);
      assert [op][1..] == [];
      assert TimedSafety.LatestOf([op], now) == ([now] + times)[|own|];
    }
  }

  lemma ReadThenOpen(id: Uuid, clock: Sessions.Clock)
    ensures InTime([VaultRuns.MetaForOp(id, clock.check)] + [VaultRuns.OpenOp(id, clock)], [clock.check, clock.renew])
  {
    var ops := [VaultRuns.MetaForOp(id, clock.check)] + [VaultRuns.OpenOp(id, clock)];
    var times := [clock.check, clock.renew];
    forall now | TimedSafety.Rises([now] + times)
      ensures TimedSafety.ClockRuns(ops, now) && TimedSafety.LatestOf(ops, now) <= Last(times, now)
    {
      assert [now] + times == [now, clock.check, clock.renew];
      assert now <= clock.check <= clock.renew by {
        assert ([now] + times)[0] == now && ([now] + times)[1] == clock.check && ([now] + times)[2] == clock.renew;
      }
      assert ops[1..] == [VaultRuns.OpenOp(id, clock)] && ops[1..][1..] == [];
      assert TimedSafety.ClockRuns(ops[1..], clock.check);
      assert TimedSafety.LatestOf(ops, now) == TimedSafety.LatestOf(ops[1..], clock.check) == clock.renew;
    }
  }

  lemma RisesEarlier(times: seq<int>, now: int, earlier: int)
    requires TimedSafety.Rises([now] + times) && earlier <= now
    ensures TimedSafety.Rises([earlier] + times)
  {
    var a, b := [earlier] + times, [now] + times;
    forall i, j | 0 <= i < j < |a| ensures a[i] <= a[j] {
      assert b[i] <= b[j] && a[j] == b[j] && a[i] <= b[i];
    }
  }

  /** A run of operations may begin earlier. */
  lemma {:induction false} ClockEarlier(ops: seq<VaultRuns.Op>, now: int, earlier: int)
    requires TimedSafety.ClockRuns(ops, now) && earlier <= now
    ensures TimedSafety.ClockRuns(ops, earlier) && TimedSafety.LatestOf(ops, earlier) <= TimedSafety.LatestOf(ops, now)
    decreases |ops|
  {
    if ops != [] {
      hide TimedSafety.Rises, TimedSafety.Instants;
      RisesEarlier(TimedSafety.Instants(ops[0]), now, earlier);
      ClockEarlier(ops[1..], TimedSafety.Latest(ops[0], now), TimedSafety.Latest(ops[0], earlier));
    }
  }

  lemma {:induction false} ClockConcat(a: seq<VaultRuns.Op>, b: seq<VaultRuns.Op>, now: int)
    requires TimedSafety.ClockRuns(a, now) && TimedSafety.ClockRuns(b, TimedSafety.LatestOf(a, now))
    ensures TimedSafety.ClockRuns(a + b, now)
    ensures TimedSafety.LatestOf(a + b, now) == TimedSafety.LatestOf(b, TimedSafety.LatestOf(a, now))
    decreases |a|
  {
    hide TimedSafety.Rises, TimedSafety.Instants, TimedSafety.Latest;
    if a == [] {
      assert a + b == b;
    } else {
      assert (a + b)[1..] == a[1..] + b;
      ClockConcat(a[1..], b, TimedSafety.Latest(a[0], now));
    }
  }

  // ---- Step by step --------------------------------------------------------------------------

  /** What the worker does to the vault by one of its acts. */
  function ActOps(v: Sessions.State, act: Act, e: Env): seq<VaultRuns.Op> {
    match act
    case TouchAct => [VaultRuns.TouchOp(e.clock.check)]
    case UseAct(id) => [VaultRuns.OpenOp(id, e.clock)]
    case ListAct(_, _) => [VaultRuns.ListOp(e.order, e.lower, e.clock.check)]
    case EditAct(id) =>
      [VaultRuns.MetaForOp(id, e.clock.check)]
      + if Sessions.MetaFor(v, id, e.clock.check).1.Ok? then [VaultRuns.OpenOp(id, e.clock)] else []
    case SaveAct(meta, payload, isUpdate) =>
      [if isUpdate then VaultRuns.UpdateOp(meta, payload, e.rand, e.clock) else VaultRuns.AddOp(meta, payload, e.rand, e.clock)]
    case DeleteAct(w) => [VaultRuns.DeleteOp(w.id)]
    case RefreshAct => [VaultRuns.ListOp(e.order, e.lower, e.clock.check)]
    case ShutdownAct => [VaultRuns.LockOp]
  }

  /** The operations of the vault that a step of the daemon consists of. */
  function StepOps(s: State, a: Action): seq<VaultRuns.Op> {
    match a
    case WorkerRuns(e) =>
      (match s.worker
       case ReadingSession(_) => [VaultRuns.TickOp(e.clock.check)]
       case Relocking(_) => [VaultRuns.LockOp]
       case Acting(act) => ActOps(s.session, act, e)
       case _ => [])
    case Finish(_, who, now) => [VaultRuns.UnlockOp(who, now)]
    case TailRuns(i, e) =>
      if i < |s.threads| && s.threads[i].at.TailSession? then [VaultRuns.TickOp(e.clock.check)]
      else if i < |s.threads| && s.threads[i].at.TailRefresh? then [VaultRuns.ListOp(e.order, e.lower, e.clock.check)]
      else []
    case _ => []
  }

  /** The operations of the vault that a run of the daemon consists of, in order. */
  ghost function RunOps(t: Popups.Tools, s: State, actions: seq<Action>): seq<VaultRuns.Op>
    requires ValidRun(t, s, actions)
    decreases |actions|
  {
    if actions == [] then [] else StepOps(s, actions[0]) + RunOps(t, Apply(t, s, actions[0]), actions[1..])
  }

  lemma RunsNow(s: Sessions.State, op: VaultRuns.Op, times: seq<int>)
    requires VaultRuns.Possible(s, op) && TimedSafety.Instants(op) <= times
    ensures Runs(s, [op], VaultRuns.Step(s, op).0) && InTime([op], times)
  {
    RunsOne(s, op);
    OneInTime(op, times);
  }

  lemma ActRuns(s: State, act: Act, e: Env)
    requires RowOrder(s.session.tables, e.order)
    ensures Runs(s.session, ActOps(s.session, act, e), Perform(s, act, e).session)
    ensures InTime(ActOps(s.session, act, e), [e.clock.check, e.clock.renew])
  {
    hide Runs, InTime, RowOrder, Sessions.ListSecrets, Sessions.OpenSecret, Sessions.MetaFor, Sessions.Add, Sessions.Update, Sessions.Delete,
      Sessions.Touch, Sessions.Lock;
    if act.EditAct? {
      EditRuns(s, act.id, e);
    } else {
      RunsNow(s.session, ActOps(s.session, act, e)[0], [e.clock.check, e.clock.renew]);
    }
  }

  lemma EditRuns(s: State, id: Uuid, e: Env)
    requires RowOrder(s.session.tables, e.order)
    ensures Runs(s.session, ActOps(s.session, EditAct(id), e), Perform(s, EditAct(id), e).session)
    ensures InTime(ActOps(s.session, EditAct(id), e), [e.clock.check, e.clock.renew])
  {
    hide Runs, InTime, RowOrder, Sessions.OpenSecret, Sessions.MetaFor;
    var v := s.session;
    var first := [VaultRuns.MetaForOp(id, e.clock.check)];
    RunsNow(v, first[0], [e.clock.check, e.clock.renew]);
    var m := Sessions.MetaFor(v, id, e.clock.check);
    if m.1.Err? {
      assert first + [] == first;
    } else {
      var second := [VaultRuns.OpenOp(id, e.clock)];
      RunsOne(m.0, second[0]);
      RunsBoth(v, first, m.0, second, Sessions.OpenSecret(m.0, id, e.clock).0);
      ReadThenOpen(id, e.clock);
    }
  }

  lemma WorkerRunsVault(s: State, e: Env)
    requires WorkerEnabled(s) && RowOrder(s.session.tables, e.order)
    ensures Runs(s.session, StepOps(s, WorkerRuns(e)), WorkerStep(s, e).session)
    ensures InTime(StepOps(s, WorkerRuns(e)), [e.clock.check, e.clock.renew])
  {
    hide Runs, InTime, RowOrder, Perform, Resolve, ActOps, Sessions.Tick, Sessions.Lock;
    var times := [e.clock.check, e.clock.renew];
    RunsNothing(s.session);
    NoneInTime(times);
    match s.worker {
      case ReadingFlag(check) => ResolveFrame(s, check, WaitingForTouch);
      case ReadingSession(check) =>
        RunsNow(s.session, VaultRuns.TickOp(e.clock.check), times);
        var r := Sessions.Tick(s.session, e.clock.check);
        ResolveFrame(s.(session := r.0), check, ForUi(r.1));
      case Relocking(_) => RunsNow(s.session, VaultRuns.LockOp, times);
      case Acting(act) => ActRuns(s, act, e);
      case _ =>
    }
  }

  lemma ThreadRunsVault(s: State, a: Action)
    requires ThreadEnabled(s, a)
    ensures Runs(s.session, StepOps(s, a), ThreadStep(s, a).session)
    ensures InTime(StepOps(s, a), Readings(a))
  {
    hide Runs, InTime, RowOrder, Sessions.Tick, Sessions.Unlock, Sessions.ListSecrets;
    RunsNothing(s.session);
    NoneInTime(Readings(a));
    if StepOps(s, a) != [] {
      RunsNow(s.session, StepOps(s, a)[0], Readings(a));
    }
  }

  /** Every step of the popup, the worker or a thread does to the session what its operations of the vault
      do, at the instants that the step reads. */
  lemma StepRunsVault(t: Popups.Tools, s: State, a: Action)
    requires Enabled(s, a)
    ensures Runs(s.session, StepOps(s, a), Apply(t, s, a).session)
    ensures InTime(StepOps(s, a), Readings(a))
  {
    hide Popups.Step, Runs, InTime, RowOrder, Tag, UiEnabled, ThreadStep, ThreadEnabled, WorkerStep, WorkerEnabled, TakeHead, ActOps;
    RunsNothing(s.session);
    NoneInTime(Readings(a));
    if a.WorkerRuns? {
      WorkerRunsVault(s, a.env);
    } else if a.TakeRequest? {
      TakeKeepsSession(s);
    } else if !a.UiActs? && !a.HotkeyPressed? && !a.TickerFires? && !a.ShutdownAsked? {
      ThreadRunsVault(s, a);
    }
  }

  lemma {:induction false} DaemonRunsVault(t: Popups.Tools, s: State, actions: seq<Action>, start: int)
    requires ValidRun(t, s, actions)
    ensures Runs(s.session, RunOps(t, s, actions), Run(t, s, actions).session)
    ensures DaemonClock(actions, start) ==>
              var ops := RunOps(t, s, actions);
              TimedSafety.ClockRuns(ops, start) && TimedSafety.LatestOf(ops, start) <= LastReading(actions, start)
    decreases |actions|
  {
    hide Apply, Enabled, Runs, Readings, StepOps, TimedSafety.Rises;
    if actions == [] {
      RunsNothing(s.session);
    } else {
      var s1, later := Apply(t, s, actions[0]), Last(Readings(actions[0]), start);
      StepRunsVault(t, s, actions[0]);
      DaemonRunsVault(t, s1, actions[1..], later);
      var first, rest := StepOps(s, actions[0]), RunOps(t, s1, actions[1..]);
      RunsBoth(s.session, first, s1.session, rest, Run(t, s1, actions[1..]).session);
      if DaemonClock(actions, start) {
        ClockEarlier(rest, later, TimedSafety.LatestOf(first, start));
        ClockConcat(first, rest, start);
      }
    }
  }

  /** Whatever the threads interleave, the database and the keys in memory stay those of an ideal vault,
      by the operations of the run's own steps at the daemon's own clock: everything proved of whole runs
      of the vault, the timeout included, holds in the daemon. */
  lemma DaemonKeepsTheVault(t: Popups.Tools, session: Sessions.State, g: VaultRuns.Ideal, actions: seq<Action>, start: int)
    requires VaultRuns.Inv(session, g) && ValidRun(t, Start(session), actions)
    ensures var ops := RunOps(t, Start(session), actions);
            && VaultSafety.IdealValidRun(g, ops)
            && Runs(session, ops, Run(t, Start(session), actions).session)
            && VaultRuns.Inv(Run(t, Start(session), actions).session, VaultSafety.IdealRun(g, ops))
            && (DaemonClock(actions, start) ==> TimedSafety.ClockRuns(ops, start))
  {
    hide Apply, Enabled, VaultRuns.Inv, ValidRun, Run, RunOps, DaemonClock, TimedSafety.ClockRuns;
    DaemonRunsVault(t, Start(session), actions, start);
    VaultSafety.RunRefines(session, g, RunOps(t, Start(session), actions));
  }

  // ---- Nothing is shown before an assertion unlocks -------------------------------------------

  predicate Revealing(ev: DaemonEvent) {
    ev.Refresh? || ev.EditReady? || (ev.Show? && ev.secrets != [])
  }

  lemma ReadingNeedsTheKey(v: Sessions.State, id: Uuid, e: Env, now: int)
    requires RowOrder(v.tables, e.order)
    ensures Sessions.ListSecrets(v, e.order, e.lower, now).1.Ok? ==> Sessions.ListSecrets(v, e.order, e.lower, now).0.inner.Some?
    ensures Sessions.OpenSecret(v, id, e.clock).1.Ok? ==> Sessions.OpenSecret(v, id, e.clock).0.inner.Some?
  {
    hide Sessions.OpenRows, RowOrder;
  }

  /** The step opens a secret to type it. */
  predicate OpensToType(s: State, s': State) {
    s'.worker.Delivering? && s'.worker != s.worker
  }

  /** `s'` has the events of `s` and perhaps more, and reveals or opens something only while unlocked. */
  ghost predicate RevealsUnlocked(s: State, s': State) {
    && s.events <= s'.events
    && (OpensToType(s, s') ==> s'.session.inner.Some?)
    && forall k | |s.events| <= k < |s'.events| :: Revealing(s'.events[k]) ==> s'.session.inner.Some?
  }

  lemma PerformReveals(s: State, act: Act, e: Env)
    requires RowOrder(s.session.tables, e.order)
    ensures RevealsUnlocked(s, Perform(s, act, e))
  {
    hide RowOrder, Sessions.ListSecrets, Sessions.OpenSecret, Sessions.MetaFor, Sessions.Add, Sessions.Update, Sessions.Delete,
      Sessions.Touch, Sessions.Lock;
    match act {
      case EditAct(id) => ReadingNeedsTheKey(Sessions.MetaFor(s.session, id, e.clock.check).0, id, e, e.clock.check) by {
        ReadsKeepTables(s.session, id, e.clock.check, e.clock);
      }
      case UseAct(id) => ReadingNeedsTheKey(s.session, id, e, e.clock.check);
      case _ => ReadingNeedsTheKey(s.session, Nil(), e, e.clock.check);
    }
  }

  lemma WorkerReveals(s: State, e: Env)
    requires WorkerEnabled(s) && RowOrder(s.session.tables, e.order)
    ensures RevealsUnlocked(s, WorkerStep(s, e))
  {
    hide RowOrder, Perform, Sessions.Tick, Sessions.Lock;
    if s.worker.Acting? {
      PerformReveals(s, s.worker.act, e);
    }
  }

  lemma ThreadReveals(s: State, a: Action)
    requires ThreadEnabled(s, a)
    ensures RevealsUnlocked(s, ThreadStep(s, a))
  {
    hide RowOrder, Sessions.Unlock, Sessions.ListSecrets, Sessions.Tick;
    if a.TailRuns? {
      ReadingNeedsTheKey(s.session, Nil(), a.env, a.env.clock.check);
    }
  }

  /** Metadata and plaintext are sent to the popup, or opened to be typed, only in steps that find the session
      unlocked. */
  lemma RevealedOnlyWhileUnlocked(t: Popups.Tools, s: State, a: Action)
    requires Enabled(s, a) && !a.UiActs?
    ensures RevealsUnlocked(s, Apply(t, s, a))
  {
    hide RowOrder, ThreadStep, ThreadEnabled, WorkerStep, WorkerEnabled, RevealsUnlocked;
    if a.WorkerRuns? {
      WorkerReveals(s, a.env);
    } else if a.TakeRequest? {
      TakeOpensNothing(s);
      SameEvents(s, Apply(t, s, a));
    } else if a.HotkeyPressed? || a.TickerFires? || a.ShutdownAsked? {
      SameEvents(s, Apply(t, s, a));
    } else {
      ThreadReveals(s, a);
    }
  }

  lemma TakeOpensNothing(s: State)
    requires s.requests != []
    ensures !OpensToType(s, TakeHead(s)) && TakeHead(s).events == s.events && TakeHead(s).typed == s.typed
  {
  }

  lemma SameEvents(s: State, s': State)
    requires s'.events == s.events && !OpensToType(s, s')
    ensures RevealsUnlocked(s, s')
  {
  }

  /** Nothing of the vault is in the popup or on its way to it, and the session is locked. */
  ghost predicate Dark(s: State) {
    && s.session.inner == None
    && s.ui.secrets == [] && s.typed == [] && !s.worker.Delivering?
    && (s.ui.mode.EditMode? ==> s.ui.mode.editor.id == None)
    && forall k | 0 <= k < |s.events| :: !Revealing(s.events[k])
  }

  lemma LockedGivesNothing(v: Sessions.State, id: Uuid, meta: SecretMeta, payload: SecretPayload, e: Env, now: int)
    requires v.inner == None && RowOrder(v.tables, e.order)
    ensures Sessions.Tick(v, now).0.inner == None && Sessions.Lock(v).inner == None && Sessions.Touch(v, now).inner == None
    ensures Sessions.ListSecrets(v, e.order, e.lower, now).1.Err? && Sessions.ListSecrets(v, e.order, e.lower, now).0.inner == None
    ensures Sessions.MetaFor(v, id, now).1.Err? && Sessions.MetaFor(v, id, now).0.inner == None
    ensures Sessions.OpenSecret(v, id, e.clock).1.Err? && Sessions.OpenSecret(v, id, e.clock).0.inner == None
    ensures Sessions.Add(v, meta, payload, e.rand, e.clock).1.Err? && Sessions.Add(v, meta, payload, e.rand, e.clock).0.inner == None
    ensures Sessions.Update(v, meta, payload, e.rand, e.clock).1.Err? && Sessions.Update(v, meta, payload, e.rand, e.clock).0.inner == None
    ensures Sessions.Delete(v, id).0.inner == None
  {
    hide Sessions.OpenRows, Sessions.SealedRow, RowOrder;
  }

  lemma UiStaysDark(t: Popups.Tools, s: State, step: Popups.UiStep)
    requires Dark(s) && UiEnabled(s, step)
    ensures Dark(UiStep(t, s, step))
  {
    hide Popups.Consistent, Tag, UiNote, Fuzzy.Rank, Popups.ListKeys, Popups.DrawRows, Editors.Build, Editors.FromExisting;
    if step.EventStep? {
      assert !Revealing(s.events[0]);
    }
    if step.TickStep? && s.ui.visible && s.ui.mode.ListMode? {
      KeysKeepSecrets(s.ui, step.keys, step.chance.now);
    }
    if step.ListFrame? {
      var p1 := if step.typed.Some? then Popups.Rerank(t, s.ui.(query := step.typed.value, selected := 0)) else s.ui;
      RowsKeepSecrets(p1, step.rows);
    }
  }

  lemma KeysKeepSecrets(p: Popups.State, k: Popups.Keys, now: int)
    requires p.mode.ListMode?
    ensures var p' := Popups.ListKeys(p, k, now).0.state;
            p'.secrets == p.secrets && (p'.mode.EditMode? ==> p'.mode.editor.id == None)
  {
    hide Popups.ActivateSelected;
  }

  lemma RowsKeepSecrets(p: Popups.State, rows: nat -> Popups.RowAction)
    ensures var p' := Popups.DrawRows(p, rows).state; p'.secrets == p.secrets && (p'.mode.EditMode? ==> p'.mode == p.mode)
  {
    hide Popups.ActivateSelected, Popups.LastRow;
  }

  lemma ResolveStaysDark(s: State, check: Check, state: UiLockState)
    requires Dark(s)
    ensures Dark(Resolve(s, check, state))
  {
  }

  lemma PerformStaysDark(s: State, act: Act, e: Env)
    requires Dark(s) && RowOrder(s.session.tables, e.order)
    ensures Dark(Perform(s, act, e))
  {
    hide RowOrder, Sessions.ListSecrets, Sessions.OpenSecret, Sessions.MetaFor, Sessions.Add, Sessions.Update, Sessions.Delete,
      Sessions.Touch, Sessions.Lock, Sessions.Tick;
    var id := match act case UseAct(id) => id case EditAct(id) => id case DeleteAct(w) => w.id case _ => Nil();
    var meta := if act.SaveAct? then act.meta else SecretMeta(Nil(), "", "", "", Other, "", [], 0, 0);
    var payload := if act.SaveAct? then act.payload else SecretPayload([], None, []);
    LockedGivesNothing(s.session, id, meta, payload, e, e.clock.check);
  }

  lemma WorkerStaysDark(s: State, e: Env)
    requires Dark(s) && WorkerEnabled(s) && RowOrder(s.session.tables, e.order)
    ensures Dark(WorkerStep(s, e))
  {
    hide RowOrder, Perform, Resolve;
    match s.worker {
      case ReadingFlag(check) => ResolveStaysDark(s, check, WaitingForTouch);
      case ReadingSession(check) =>
        var r := Sessions.Tick(s.session, e.clock.check);
        ResolveStaysDark(s.(session := r.0), check, ForUi(r.1));
      case Acting(act) => PerformStaysDark(s, act, e);
      case _ =>
    }
  }

  ghost predicate Unlocks(s: State, s': State) {
    exists i :: s'.log == s.log + [AssertionEnded(i, true)]
  }

  lemma TailStaysDark(s: State, i: nat, e: Env)
    requires Dark(s) && At(s, i) && RowOrder(s.session.tables, e.order)
    ensures Dark(TailStep(s, i, e))
  {
    LockedGivesNothing(s.session, Nil(), SecretMeta(Nil(), "", "", "", Other, "", [], 0, 0), SecretPayload([], None, []), e, e.clock.check);
    hide RowOrder, Sessions.ListSecrets, Sessions.Tick;
  }

  lemma ThreadStaysDark(s: State, a: Action)
    requires Dark(s) && ThreadEnabled(s, a)
    ensures Dark(ThreadStep(s, a)) || Unlocks(s, ThreadStep(s, a))
  {
    hide RowOrder, Sessions.Unlock, TailStep;
    if a.Finish? {
      var r := Sessions.Unlock(s.session, a.who, a.now);
      VaultSafety.FailedUnlockChangesNothing(s.session, a.who, a.now);
      assert ThreadStep(s, a).log == s.log + [AssertionEnded(a.thread, r.1.Ok?)];
    }
    if a.TailRuns? {
      TailStaysDark(s, a.thread, a.env);
    }
  }

  lemma StepStaysDark(t: Popups.Tools, s: State, a: Action)
    requires Dark(s) && Enabled(s, a)
    ensures Dark(Apply(t, s, a)) || Unlocks(s, Apply(t, s, a))
  {
    hide RowOrder, UiStep, UiEnabled, ThreadStep, ThreadEnabled, WorkerStep, WorkerEnabled, TakeHead, Unlocks;
    if a.UiActs? {
      UiStaysDark(t, s, a.step);
    } else if a.WorkerRuns? {
      WorkerStaysDark(s, a.env);
    } else if a.TakeRequest? {
      TakeStaysDark(s);
    } else if !a.HotkeyPressed? && !a.TickerFires? && !a.ShutdownAsked? {
      ThreadStaysDark(s, a);
    }
  }

  lemma TakeStaysDark(s: State)
    requires Dark(s) && s.requests != []
    ensures Dark(TakeHead(s))
  {
  }

  ghost predicate NeverUnlocked(log: Log) {
    forall k | 0 <= k < |log| :: !(log[k].AssertionEnded? && log[k].unlocked)
  }

  lemma NeverMeansNotNow(s: State, s': State)
    requires NeverUnlocked(s'.log)
    ensures !Unlocks(s, s')
  {
    forall i ensures s'.log != s.log + [AssertionEnded(i, true)] {
      assert (s.log + [AssertionEnded(i, true)])[|s.log|] == AssertionEnded(i, true);
    }
  }

  lemma {:induction false} RunStaysDark(t: Popups.Tools, s: State, actions: seq<Action>)
    requires Dark(s) && ValidRun(t, s, actions) && NeverUnlocked(Run(t, s, actions).log)
    ensures Dark(Run(t, s, actions))
    decreases |actions|
  {
    hide Apply, Enabled, Dark;
    if actions != [] {
      var s1 := Apply(t, s, actions[0]);
      StepStaysDark(t, s, actions[0]);
      RunGrows(t, s1, actions[1..]);
      assert forall k | 0 <= k < |s1.log| :: s1.log[k] == Run(t, s, actions).log[k];
      NeverMeansNotNow(s, s1);
      RunStaysDark(t, s1, actions[1..]);
    }
  }

  /** Before any assertion has unlocked the vault, in every interleaving, the popup holds and lists
      nothing of it, no stored secret is in the form, nothing of it is on its way, and nothing was typed. */
  lemma NothingShownBeforeAuthentication(t: Popups.Tools, session: Sessions.State, actions: seq<Action>)
    requires session.inner == None && ValidRun(t, Start(session), actions)
    requires NeverUnlocked(Run(t, Start(session), actions).log)
    ensures var s := Run(t, Start(session), actions);
            && s.ui.secrets == [] && s.ui.ranked == [] && s.typed == []
            && (s.ui.mode.EditMode? ==> s.ui.mode.editor.id == None)
            && (forall k | 0 <= k < |s.events| :: !Revealing(s.events[k]))
            && s.session.inner == None
  {
    assert Dark(Start(session));
    hide Start, ValidRun, Run, Fuzzy.Rank;
    RunStaysDark(t, Start(session), actions);
    PopupAlwaysAgrees(t, session, actions);
    Popups.NothingRanked(t, Run(t, Start(session), actions).ui.query, Run(t, Start(session), actions).ui.context);
  }

  // ---- What is typed ---------------------------------------------------------------------------------

  /** In this state the worker opens a secret to use it, and this is its value. */
  ghost predicate OpensValue(s: State, a: Action, value: Bytes) {
    && a.WorkerRuns? && s.worker.Acting? && s.worker.act.UseAct?
    && var r := Sessions.OpenSecret(s.session, s.worker.act.id, a.env.clock).1; r.Ok? && r.value.value == value
  }

  lemma PerformOpens(s: State, act: Act, e: Env)
    requires RowOrder(s.session.tables, e.order) && s.worker == Acting(act)
    ensures var s' := Perform(s, act, e);
            s'.typed == s.typed && (OpensToType(s, s') ==> OpensValue(s, WorkerRuns(e), s'.worker.value))
  {
    hide RowOrder, Sessions.ListSecrets, Sessions.OpenSecret, Sessions.MetaFor, Sessions.Add, Sessions.Update, Sessions.Delete,
      Sessions.Touch, Sessions.Lock;
  }

  lemma WorkerTypes(s: State, e: Env)
    requires WorkerEnabled(s) && RowOrder(s.session.tables, e.order)
    ensures var s' := WorkerStep(s, e);
            && (s'.typed == s.typed || (s.worker.Delivering? && s'.typed == s.typed + [s.worker.value]))
            && (OpensToType(s, s') ==> OpensValue(s, WorkerRuns(e), s'.worker.value))
  {
    hide RowOrder, Perform, Sessions.Tick, Sessions.Lock, OpensValue;
    assert s.typed + [] == s.typed;
    if s.worker.Acting? {
      PerformOpens(s, s.worker.act, e);
    }
  }

  lemma ThreadTypesNothing(s: State, a: Action)
    requires ThreadEnabled(s, a)
    ensures ThreadStep(s, a).typed == s.typed && ThreadStep(s, a).worker == s.worker
  {
    hide Sessions.Unlock, Sessions.Tick, Sessions.ListSecrets, RowOrder;
  }

  lemma StepTypes(t: Popups.Tools, s: State, a: Action)
    requires Enabled(s, a)
    ensures var s' := Apply(t, s, a);
            && (s'.typed == s.typed || (s.worker.Delivering? && s'.typed == s.typed + [s.worker.value]))
            && (OpensToType(s, s') ==> OpensValue(s, a, s'.worker.value))
  {
    hide Popups.Step, RowOrder, Tag, UiNote, ThreadStep, ThreadEnabled, WorkerStep, WorkerEnabled, TakeHead, OpensValue;
    if a.WorkerRuns? {
      WorkerTypes(s, a.env);
    } else if a.TakeRequest? {
      TakeOpensNothing(s);
    } else if !a.UiActs? && !a.HotkeyPressed? && !a.TickerFires? && !a.ShutdownAsked? {
      ThreadTypesNothing(s, a);
    }
  }

  lemma {:induction false} TypedGrows(t: Popups.Tools, s: State, actions: seq<Action>)
    requires ValidRun(t, s, actions)
    ensures s.typed <= Run(t, s, actions).typed
    decreases |actions|
  {
    hide Apply, Enabled, OpensValue;
    if actions != [] {
      StepTypes(t, s, actions[0]);
      TypedGrows(t, Apply(t, s, actions[0]), actions[1..]);
    }
  }

  lemma {:induction false} TypedWasOpened(t: Popups.Tools, s: State, actions: seq<Action>, k: nat) returns (j: nat)
    requires ValidRun(t, s, actions) && |s.typed| <= k < |Run(t, s, actions).typed|
    ensures (j < |actions| && OpensValue(StateAt(t, s, actions, j), actions[j], Run(t, s, actions).typed[k]))
         || (s.worker.Delivering? && Run(t, s, actions).typed[k] == s.worker.value)
    decreases |actions|
  {
    hide Apply, Enabled, OpensValue;
    var s1, rest := Apply(t, s, actions[0]), actions[1..];
    StepTypes(t, s, actions[0]);
    TypedGrows(t, s1, rest);
    j := 0;
    if k >= |s1.typed| {
      var i := TypedWasOpened(t, s1, rest, k);
      if i < |rest| && OpensValue(StateAt(t, s1, rest, i), rest[i], Run(t, s1, rest).typed[k]) {
        j := i + 1;
        assert StateAt(t, s, actions, j) == StateAt(t, s1, rest, i) && actions[j] == rest[i];
      } else {
        assert StateAt(t, s, actions, 0) == s;
      }
    }
  }

  /** The worker is about to use a secret that is stored, and this is its value. */
  predicate UsesStored(s: State, contents: map<Bytes, VaultRuns.Secret>, value: Bytes) {
    && s.worker.Acting? && s.worker.act.UseAct?
    && s.worker.act.id in contents && contents[s.worker.act.id].payload.value == value
  }

  /** Whatever is ever typed into the focused window was, when the worker opened it, the value stored under
      the id that the popup had asked to use: `g'` is the ideal vault at that moment of the run. */
  lemma TypedWasStored(t: Popups.Tools, session: Sessions.State, g: VaultRuns.Ideal, actions: seq<Action>, k: nat)
    returns (j: nat, g': VaultRuns.Ideal)
    requires VaultRuns.Inv(session, g) && ValidRun(t, Start(session), actions)
    requires k < |Run(t, Start(session), actions).typed|
    ensures j < |actions| && ValidRun(t, Start(session), actions[..j])
    ensures var ops := RunOps(t, Start(session), actions[..j]);
            VaultSafety.IdealValidRun(g, ops) && g' == VaultSafety.IdealRun(g, ops)
    ensures UsesStored(StateAt(t, Start(session), actions, j), g'.contents, Run(t, Start(session), actions).typed[k])
  {
    hide Apply, Enabled, VaultRuns.Inv, OpensValue, VaultSafety.IdealRun, VaultSafety.IdealValidRun, RunOps, ValidRun, Run, StateAt, UsesStored,
      Start;
    StartsWithNothingTyped(session);
    j := TypedWasOpened(t, Start(session), actions, k);
    StateAtPrefix(t, Start(session), actions, j);
    StatesOfRun(t, Start(session), actions[..j], j);
    DaemonKeepsTheVault(t, session, g, actions[..j], 0);
    g' := VaultSafety.IdealRun(g, RunOps(t, Start(session), actions[..j]));
    OpensStored(StateAt(t, Start(session), actions, j), g', actions[j], Run(t, Start(session), actions).typed[k]);
  }

  lemma StartsWithNothingTyped(session: Sessions.State)
    ensures Start(session).typed == [] && !Start(session).worker.Delivering?
  {
  }

  lemma OpensStored(s: State, g: VaultRuns.Ideal, a: Action, value: Bytes)
    requires VaultRuns.Inv(s.session, g) && OpensValue(s, a, value)
    ensures UsesStored(s, g.contents, value)
  {
    hide VaultRuns.Inv, Sessions.OpenSecret;
    VaultRuns.ReadRefines(s.session, g, VaultRuns.OpenOp(s.worker.act.id, a.env.clock));
  }

  // ---- Nothing is held by a hidden popup ---------------------------------------------------------

  /** The action delivers metadata to a popup that is hidden. */
  predicate DeliversHidden(s: State, a: Action) {
    a.UiActs? && Popups.RefreshesHidden(s.ui, a.step)
  }

  lemma StepHoldsOnly(t: Popups.Tools, s: State, a: Action)
    requires Popups.HeldOnlyWhileShown(s.ui) && Enabled(s, a)
    ensures Popups.HeldOnlyWhileShown(Apply(t, s, a).ui) <==> !DeliversHidden(s, a)
  {
    hide RowOrder, ThreadStep, ThreadEnabled, WorkerStep, WorkerEnabled, Popups.Step, Popups.RefreshesHidden, Tag, UiNote;
    if a.WorkerRuns? {
      WorkerFrame(s, a.env);
    } else if a.UiActs? {
      Popups.HeldOnlyExactly(t, s.ui, a.step);
    } else if ThreadEnabled(s, a) {
      ThreadFrame(s, a);
    }
  }

  /** In every state of the run a hidden popup holds nothing. */
  ghost predicate AlwaysHeldOnly(t: Popups.Tools, s: State, actions: seq<Action>)
    requires ValidRun(t, s, actions)
  {
    forall j: nat | j <= |actions| :: Popups.HeldOnlyWhileShown(StateAt(t, s, actions, j).ui)
  }

  ghost predicate NeverDeliversHidden(t: Popups.Tools, s: State, actions: seq<Action>)
    requires ValidRun(t, s, actions)
  {
    forall j: nat | j < |actions| :: !DeliversHidden(StateAt(t, s, actions, j), actions[j])
  }

  lemma Later(t: Popups.Tools, s: State, actions: seq<Action>)
    requires ValidRun(t, s, actions) && actions != []
    ensures var s1 := Apply(t, s, actions[0]);
            && (AlwaysHeldOnly(t, s, actions) <==> Popups.HeldOnlyWhileShown(s.ui) && AlwaysHeldOnly(t, s1, actions[1..]))
            && (NeverDeliversHidden(t, s, actions) <==> !DeliversHidden(s, actions[0]) && NeverDeliversHidden(t, s1, actions[1..]))
  {
    hide Apply, Enabled, DeliversHidden, Popups.HeldOnlyWhileShown;
    var s1, rest := Apply(t, s, actions[0]), actions[1..];
    assert StateAt(t, s, actions, 0) == s;
    forall j: nat | j <= |rest| ensures StateAt(t, s1, rest, j) == StateAt(t, s, actions, j + 1) {
    }
    assert forall j: nat | 0 < j <= |actions| :: StateAt(t, s, actions, j) == StateAt(t, s1, rest, j - 1);
    if AlwaysHeldOnly(t, s, actions) {
      forall j: nat | j <= |rest| ensures Popups.HeldOnlyWhileShown(StateAt(t, s1, rest, j).ui) {
        assert StateAt(t, s1, rest, j) == StateAt(t, s, actions, j + 1);
      }
    }
    if NeverDeliversHidden(t, s, actions) {
      forall j: nat | j < |rest| ensures !DeliversHidden(StateAt(t, s1, rest, j), rest[j]) {
        assert StateAt(t, s1, rest, j) == StateAt(t, s, actions, j + 1) && rest[j] == actions[j + 1];
      }
    }
  }

  /** Metadata is never held by a hidden popup, at any moment of a run, exactly when no
      nonempty list reaches one. */
  lemma {:induction false} HiddenHoldsNothingExactly(t: Popups.Tools, s: State, actions: seq<Action>)
    requires ValidRun(t, s, actions) && Popups.HeldOnlyWhileShown(s.ui)
    ensures AlwaysHeldOnly(t, s, actions) <==> NeverDeliversHidden(t, s, actions)
    decreases |actions|
  {
    hide Apply, Enabled, DeliversHidden, Popups.HeldOnlyWhileShown;
    if actions != [] {
      var s1, rest := Apply(t, s, actions[0]), actions[1..];
      StepHoldsOnly(t, s, actions[0]);
      Later(t, s, actions);
      if DeliversHidden(s, actions[0]) {
        assert StateAt(t, s1, rest, 0) == s1;
      } else {
        HiddenHoldsNothingExactly(t, s1, rest);
      }
    }
  }
}
