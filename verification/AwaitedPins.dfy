/** Assertions that the worker awaits get no PIN (`daemon.rs`, `pin.rs`).

    Answers reach the channel only through the worker, which takes no request while it awaits an
    assertion. So whatever a deletion, or an edit or a save after a relock, asks of an authenticator, it
    never receives the PIN that the user types. */
module AwaitedPins {
  import opened Db
  import opened Messages
  import opened SharedState
  import opened Protocol
  import opened ProtocolSafety
  import Popups
  import Sessions

  /** An awaited assertion that is not over. */
  predicate Pending(t: Thread) {
    !t.claimed && (t.at.Wanting? || t.at.Asserting? || t.at.Finished?)
  }

  /** The worker is at the very place where it awaits that thread. */
  ghost predicate AwaitedInv(threads: seq<Thread>, worker: WorkerAt) {
    forall i | 0 <= i < |threads| && Pending(threads[i]) :: worker.Awaiting? && worker.thread == i
  }

  /** Once such an assertion has drained the channel, the channel stays empty. */
  ghost predicate DryInv(threads: seq<Thread>, answers: seq<Answer>) {
    forall i | 0 <= i < |threads| && !threads[i].claimed && DrainMark(threads[i]).Some? :: answers == []
  }

  ghost predicate Unclaimed(threads: seq<Thread>, log: Log, k: nat) {
    k < |log| && log[k].AssertionBegan? && log[k].thread < |threads| && !threads[log[k].thread].claimed
  }

  ghost predicate PinNoteInv(threads: seq<Thread>, log: Log, k: nat)
    requires k < |log|
  {
    match log[k]
    case PinReceived(thread, _, _, _) => thread < |threads| && threads[thread].claimed
    case Deleted(w) => Unclaimed(threads, log, w.beganAt)
    case _ => true
  }

  ghost predicate PinLogInv(threads: seq<Thread>, log: Log) {
    forall k | 0 <= k < |log| :: PinNoteInv(threads, log, k)
  }

  ghost predicate ActInv(worker: WorkerAt, threads: seq<Thread>, log: Log) {
    worker.Acting? && worker.act.DeleteAct? ==> Unclaimed(threads, log, worker.act.warrant.beganAt)
  }

  ghost predicate NoPinInv(s: State) {
    && AwaitedInv(s.threads, s.worker)
    && DryInv(s.threads, s.answers)
    && PinLogInv(s.threads, s.log)
    && ActInv(s.worker, s.threads, s.log)
  }

  /** Threads are only added, and none changes its kind. */
  ghost predicate ThreadsGrewTo(threads: seq<Thread>, threads': seq<Thread>) {
    && |threads| <= |threads'|
    && forall i | 0 <= i < |threads| :: threads'[i].claimed == threads[i].claimed
  }

  lemma NotesStay(threads: seq<Thread>, log: Log, threads': seq<Thread>, log': Log)
    requires PinLogInv(threads, log) && ThreadsGrewTo(threads, threads') && log <= log'
    requires |log'| <= |log| + 1 && (|log| < |log'| ==> PinNoteInv(threads', log', |log|))
    ensures PinLogInv(threads', log')
  {
    forall k | 0 <= k < |log'| ensures PinNoteInv(threads', log', k) {
      if k < |log| {
        assert PinNoteInv(threads, log, k);
      }
    }
  }

  // ---- The popup and the requests --------------------------------------------------------------

  lemma UiKeeps(t: Popups.Tools, s: State, step: Popups.UiStep)
    requires NoPinInv(s) && UiEnabled(s, step)
    ensures NoPinInv(UiStep(t, s, step))
  {
    hide Popups.Step, Tag, DryInv, AwaitedInv, PinLogInv;
    NotesStay(s.threads, s.log, s.threads, UiStep(t, s, step).log);
  }

  lemma TakeKeeps(s: State)
    requires NoPinInv(s) && s.worker.Idle? && s.requests != []
    ensures NoPinInv(TakeHead(s))
  {
    NotesStay(s.threads, s.log, s.threads, TakeHead(s).log);
    hide PinLogInv;
    NobodyPending(s);
  }

  /** While the worker awaits nothing, no awaited assertion is on. */
  lemma NobodyPending(s: State)
    requires AwaitedInv(s.threads, s.worker) && !s.worker.Awaiting?
    ensures forall i | 0 <= i < |s.threads| :: s.threads[i].claimed || DrainMark(s.threads[i]).None?
  {
    forall i | 0 <= i < |s.threads| ensures s.threads[i].claimed || DrainMark(s.threads[i]).None? {
      assert !Pending(s.threads[i]);
    }
  }

  // ---- The worker --------------------------------------------------------------------------------

  lemma WorkerKeeps(s: State, e: Env)
    requires NoPinInv(s) && WorkerEnabled(s) && RowOrder(s.session.tables, e.order)
    requires ThreadInv(s.threads, s.log) && WorkerInv(s.worker, s.threads, s.log)
    ensures NoPinInv(WorkerStep(s, e))
  {
    hide Perform, Resolve, RowOrder, Sessions.Tick, Sessions.Lock;
    var s' := WorkerStep(s, e);
    WorkerLog(s, e);
    match s.worker {
      case ReadingFlag(check) =>
        ResolveFrame(s, check, WaitingForTouch);
        WorkerTurns(s, s');
      case ReadingSession(check) =>
        var r := Sessions.Tick(s.session, e.clock.check);
        ResolveFrame(s.(session := r.0), check, ForUi(r.1));
        WorkerTurns(s, s');
      case Acting(act) =>
        PerformFrame(s, act, e);
        WorkerTurns(s, s');
      case Claiming => WorkerTurns(s, s');
      case Relocking(_) => WorkerTurns(s, s');
      case Delivering(_) => WorkerTurns(s, s');
      case Awaiting(next, i) => AwaitEnds(s, next, i, e);
      case _ => WorkerSpawns(s, e);
    }
  }

  /** A worker that awaits nothing, and goes on without a new thread. */
  lemma WorkerTurns(s: State, s': State)
    requires NoPinInv(s) && !s.worker.Awaiting? && s'.threads == s.threads && s'.answers == s.answers
    requires s.log <= s'.log && |s'.log| <= |s.log| + 1
    requires |s.log| < |s'.log| && s'.log[|s.log|].Deleted? ==> s.worker == Acting(DeleteAct(s'.log[|s.log|].warrant))
    requires |s.log| < |s'.log| ==> !s'.log[|s.log|].PinReceived?
    requires !(s'.worker.Acting? && s'.worker.act.DeleteAct?)
    ensures NoPinInv(s')
  {
    NotesStay(s.threads, s.log, s'.threads, s'.log);
  }

  lemma WorkerSpawns(s: State, e: Env)
    requires NoPinInv(s) && WorkerEnabled(s) && RowOrder(s.session.tables, e.order)
    requires s.worker.Spawning? || s.worker.SpawningAssertion?
    ensures NoPinInv(WorkerStep(s, e))
  {
    hide RowOrder, PinLogInv;
    var s' := WorkerStep(s, e);
    NobodyPending(s);
    NotesStay(s.threads, s.log, s'.threads, s'.log);
    assert forall i | 0 <= i < |s.threads| :: s'.threads[i] == s.threads[i] && !Pending(s.threads[i]);
  }

  lemma AwaitEnds(s: State, next: Act, i: nat, e: Env)
    requires NoPinInv(s) && s.worker == Awaiting(next, i) && WorkerEnabled(s) && RowOrder(s.session.tables, e.order)
    requires ThreadInv(s.threads, s.log) && WorkerInv(s.worker, s.threads, s.log)
    ensures NoPinInv(WorkerStep(s, e))
  {
    hide RowOrder, PinLogInv, AwaitedInv, DryInv, PinNoteInv;
    var s' := WorkerStep(s, e);
    assert s'.threads == s.threads[i := s.threads[i].(at := Gone)];
    NotesStay(s.threads, s.log, s'.threads, s'.log);
    ThreadGone(s, i, s'.worker);
    WarrantNamesThread(s, next, i);
  }

  lemma ThreadGone(s: State, i: nat, worker: WorkerAt)
    requires i < |s.threads| && AwaitedInv(s.threads, s.worker) && s.worker.Awaiting? && s.worker.thread == i
    requires DryInv(s.threads, s.answers)
    ensures var threads := s.threads[i := s.threads[i].(at := Gone)];
            AwaitedInv(threads, worker) && DryInv(threads, s.answers)
  {
    var threads := s.threads[i := s.threads[i].(at := Gone)];
    forall j | 0 <= j < |threads| ensures !Pending(threads[j]) && (j != i ==> threads[j] == s.threads[j]) {
    }
  }

  lemma WarrantNamesThread(s: State, next: Act, i: nat)
    requires s.worker == Awaiting(next, i) && WorkerEnabled(s)
    requires ThreadInv(s.threads, s.log) && WorkerInv(s.worker, s.threads, s.log)
    ensures Unclaimed(s.threads[i := s.threads[i].(at := Gone)], s.log, s.threads[i].at.began)
  {
    assert ThreadOk(s.threads[i], i, s.log);
  }

  // ---- The threads ---------------------------------------------------------------------------------

  lemma ThreadKeeps(s: State, a: Action)
    requires NoPinInv(s) && ThreadEnabled(s, a)
    ensures NoPinInv(ThreadStep(s, a))
  {
    var s' := ThreadStep(s, a);
    ThreadFrame(s, a);
    assert forall j | 0 <= j < |s.threads| && j != a.thread :: s'.threads[j] == s.threads[j];
    OneThreadKeeps(s, a);
    hide ThreadStep, ThreadEnabled, PinLogInv, Outstanding;
    NotesStay(s.threads, s.log, s'.threads, s'.log);
  }

  /** What the moving thread does to itself and to the channel. */
  lemma OneThreadKeeps(s: State, a: Action)
    requires AwaitedInv(s.threads, s.worker) && DryInv(s.threads, s.answers) && ThreadEnabled(s, a)
    ensures var s' := ThreadStep(s, a);
            && a.thread < |s'.threads| && a.thread < |s.threads|
            && (Pending(s'.threads[a.thread]) ==> Pending(s.threads[a.thread]))
            && DryInv(s'.threads, s'.answers)
            && (|s.log| < |s'.log| && s'.log[|s.log|].PinReceived? ==>
                  s'.log[|s.log|].thread == a.thread && s'.threads[a.thread].claimed)
  {
    hide Sessions.Unlock, TailStep, RowOrder, Outstanding;
    if a.TailRuns? {
      TailFrame(s, a.thread, a.env);
      ThreadFrame(s, a);
    }
    if a.ReceivePin? {
      assert DrainMark(s.threads[a.thread]).Some?;
    }
  }

  // ---- Every run -----------------------------------------------------------------------------------

  lemma StepKeepsDry(t: Popups.Tools, s: State, a: Action)
    requires Inv(t, s) && NoPinInv(s) && Enabled(s, a)
    ensures NoPinInv(Apply(t, s, a))
  {
    hide Popups.Step, RowOrder, UiStep, UiEnabled, WorkerStep, WorkerEnabled, ThreadEnabled, ThreadStep, TakeHead, Sessions.Lock,
      LogInv, TicketInv, WorkerInv, FlagInv, MutexInv, ThreadInv, PinInv, AnswersInv, QueueInv, ConfirmInv, Popups.Consistent, NoPinInv;
    if a.WorkerRuns? {
      WorkerKeeps(s, a.env);
    } else if a.UiActs? {
      UiKeeps(t, s, a.step);
    } else if a.TakeRequest? {
      TakeKeeps(s);
    } else if a.HotkeyPressed? || a.TickerFires? || a.ShutdownAsked? {
      StartsAnew(t, s, a);
    } else {
      ThreadKeeps(s, a);
    }
  }

  lemma StartsAnew(t: Popups.Tools, s: State, a: Action)
    requires NoPinInv(s) && Enabled(s, a) && (a.HotkeyPressed? || a.TickerFires? || a.ShutdownAsked?)
    ensures NoPinInv(Apply(t, s, a))
  {
    WorkerTurns(s, Apply(t, s, a));
  }

  lemma {:induction false} RunKeepsDry(t: Popups.Tools, s: State, actions: seq<Action>)
    requires Inv(t, s) && NoPinInv(s) && ValidRun(t, s, actions)
    ensures NoPinInv(Run(t, s, actions))
    decreases |actions|
  {
    hide Inv, NoPinInv, Apply, Enabled;
    if actions != [] {
      StepKeeps(t, s, actions[0]);
      StepKeepsDry(t, s, actions[0]);
      RunKeepsDry(t, Apply(t, s, actions[0]), actions[1..]);
    }
  }

  lemma StartsDry(session: Sessions.State)
    ensures NoPinInv(Start(session))
  {
  }

  lemma ReachedDry(t: Popups.Tools, session: Sessions.State, actions: seq<Action>)
    requires ValidRun(t, Start(session), actions)
    ensures NoPinInv(Run(t, Start(session), actions))
  {
    hide Inv, NoPinInv, ValidRun, Run, Start;
    StartHolds(t, session);
    StartsDry(session);
    RunKeepsDry(t, Start(session), actions);
  }

  /** In every interleaving: after its drain an awaited assertion finds the channel empty for good, so
      that receiving a PIN is open only to the unlocks that nobody awaits. */
  lemma AwaitedAssertionsGetNoPin(t: Popups.Tools, session: Sessions.State, actions: seq<Action>, i: nat)
    requires ValidRun(t, Start(session), actions)
    ensures var s := Run(t, Start(session), actions);
            && (i < |s.threads| && Pending(s.threads[i]) ==> s.worker.Awaiting? && s.worker.thread == i)
            && (i < |s.threads| && !s.threads[i].claimed && DrainMark(s.threads[i]).Some? ==> s.answers == [])
            && (Enabled(s, ReceivePin(i)) ==> s.threads[i].claimed)
  {
    ReachedDry(t, session, actions);
    hide ValidRun, Run, Start, PinLogInv, RowOrder;
  }

  /** No deletion was ever authorised by an assertion that received a PIN. */
  lemma DeletionsNeverTookAPin(t: Popups.Tools, session: Sessions.State, actions: seq<Action>, k: nat, p: nat)
    requires ValidRun(t, Start(session), actions)
    requires k < |Run(t, Start(session), actions).log| && Run(t, Start(session), actions).log[k].Deleted?
    requires p < |Run(t, Start(session), actions).log| && Run(t, Start(session), actions).log[p].PinReceived?
    ensures var log := Run(t, Start(session), actions).log;
            && log[k].warrant.beganAt < |log| && log[log[k].warrant.beganAt].AssertionBegan?
            && log[log[k].warrant.beganAt].thread != log[p].thread
  {
    ReachedDry(t, session, actions);
    hide ValidRun, Run, Start, AwaitedInv, DryInv, ActInv;
    var s := Run(t, Start(session), actions);
    assert PinNoteInv(s.threads, s.log, k) && PinNoteInv(s.threads, s.log, p);
  }
}
