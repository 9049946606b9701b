/** What every interleaving of the popup and the daemon guarantees. */
module ProtocolSafety {
  import opened Common
  import opened Symbolic
  import opened Keys
  import opened Model
  import opened Db
  import opened Messages
  import opened SharedState
  import opened Protocol
  import Fuzzy
  import Popups
  import Sessions

  // ---- The mutex and the flag -------------------------------------------------------------

  /** A thread asserts exactly while it holds the session. */
  ghost predicate MutexInv(threads: seq<Thread>, holder: Option<nat>) {
    && (holder.Some? ==> holder.value < |threads|)
    && forall i | 0 <= i < |threads| :: threads[i].at.Asserting? <==> holder == Some(i)
  }

  /** Claimed and not yet released. */
  predicate Outstanding(t: Thread) {
    t.claimed && (t.at.Wanting? || t.at.Asserting? || t.at.Finished?)
  }

  /** The flag is set exactly while a claimed unlock is about to start or outstanding, and there is
      never more than one. */
  ghost predicate FlagInv(threads: seq<Thread>, worker: WorkerAt, inFlight: bool) {
    && (inFlight <==> worker.Spawning? || exists i | 0 <= i < |threads| :: Outstanding(threads[i]))
    && (worker.Spawning? ==> forall i | 0 <= i < |threads| :: !Outstanding(threads[i]))
    && forall i, j | 0 <= i < |threads| && 0 <= j < |threads| && Outstanding(threads[i]) && Outstanding(threads[j]) :: i == j
  }

  // ---- PINs ------------------------------------------------------------------------------------

  ghost predicate AnswersInv(answers: seq<Answer>, log: Log) {
    forall k | 0 <= k < |answers| :: answers[k].at < |log| && log[answers[k].at] == PinEnqueued(answers[k].sent)
  }

  /** The place of a thread's drain, while its prompt is out. */
  function DrainMark(t: Thread): Option<nat> {
    if t.at.Asserting? && t.at.pin.Drained? then Some(t.at.pin.mark)
    else if t.at.Asserting? && t.at.pin.Waiting? then Some(t.at.pin.mark)
    else None
  }

  predicate DrainOf(n: Note, i: nat) {
    n.PinDrained? && n.thread == i
  }

  ghost predicate PinOk(mark: Option<nat>, i: nat, answers: seq<Answer>, log: Log) {
    mark.Some? ==>
      && mark.value < |log| && DrainOf(log[mark.value], i)
      && forall k | 0 <= k < |answers| :: mark.value < answers[k].at
  }

  /** Whatever is in the channel after a thread's drain was put there after it. */
  ghost predicate PinInv(threads: seq<Thread>, answers: seq<Answer>, log: Log) {
    forall i | 0 <= i < |threads| :: PinOk(DrainMark(threads[i]), i, answers, log)
  }

  // ---- Assertions ----------------------------------------------------------------------------------

  ghost predicate BeganAt(log: Log, began: nat, i: nat) {
    began < |log| && log[began] == AssertionBegan(i)
  }

  ghost predicate ThreadOk(t: Thread, i: nat, log: Log) {
    && (t.at.Asserting? ==> t.spawned <= t.at.began && BeganAt(log, t.at.began, i))
    && (t.at.Finished? ==>
          && t.spawned <= t.at.began < t.at.ended < |log|
          && BeganAt(log, t.at.began, i)
          && log[t.at.ended] == AssertionEnded(i, t.at.unlocked))
    && t.spawned <= |log|
  }

  ghost predicate ThreadInv(threads: seq<Thread>, log: Log) {
    forall i | 0 <= i < |threads| :: ThreadOk(threads[i], i, log)
  }

  // ---- Warrants --------------------------------------------------------------------------------------

  ghost predicate OpenedAt(log: Log, k: nat, id: Uuid) {
    k < |log| && log[k].ConfirmOpened? && log[k].id == id
  }

  ghost predicate AcceptedFor(log: Log, w: Warrant) {
    && OpenedAt(log, w.openedAt, w.id)
    && w.openedAt < w.acceptedAt < |log| && log[w.acceptedAt] == ConfirmAccepted(w.openedAt, w.id)
  }

  ghost predicate RelockedFor(log: Log, w: Warrant) {
    && AcceptedFor(log, w)
    && w.acceptedAt < w.relockedAt < |log| && log[w.relockedAt] == Relocked(w.acceptedAt, w.id)
  }

  /** The whole chain: the confirmation was opened for this id, accepted, the worker locked the session
      for it, and then an assertion began and unlocked. */
  ghost predicate Warranted(log: Log, w: Warrant) {
    && RelockedFor(log, w)
    && w.relockedAt < w.beganAt < w.endedAt < |log|
    && log[w.beganAt].AssertionBegan?
    && log[w.endedAt] == AssertionEnded(log[w.beganAt].thread, true)
  }

  ghost predicate QueueInv(requests: seq<Tagged>, log: Log) {
    forall k | 0 <= k < |requests| ::
      requests[k].request.DeleteRequest? ==> requests[k].warrant.id == requests[k].request.id && AcceptedFor(log, requests[k].warrant)
  }

  ghost predicate ConfirmInv(ui: Popups.State, confirmation: Option<nat>, log: Log) {
    && (ui.mode.ConfirmDelete? <==> confirmation.Some?)
    && (confirmation.Some? ==> OpenedAt(log, confirmation.value, ui.mode.id))
  }

  ghost predicate WorkerInv(worker: WorkerAt, threads: seq<Thread>, log: Log) {
    && (worker.Relocking? ==> AcceptedFor(log, worker.warrant))
    && (worker.SpawningAssertion? && worker.next.DeleteAct? ==> RelockedFor(log, worker.next.warrant))
    && (worker.Awaiting? ==> worker.thread < |threads| && !threads[worker.thread].claimed)
    && (worker.Awaiting? && worker.next.DeleteAct? ==>
          RelockedFor(log, worker.next.warrant) && worker.next.warrant.relockedAt < threads[worker.thread].spawned)
    && (worker.Acting? && worker.act.DeleteAct? ==> Warranted(log, worker.act.warrant))
  }

  // ---- The log -------------------------------------------------------------------------------------------

  ghost predicate NoteInv(log: Log, k: nat)
    requires k < |log|
  {
    match log[k]
    case ConfirmOpened(id, name, listed) => exists i | 0 <= i < |listed| :: listed[i].meta.id == id && listed[i].meta.name == name
    case Deleted(w) => w.endedAt < k && Warranted(log, w)
    case PinReceived(thread, drained, sent, enqueued) =>
      drained < enqueued < k && DrainOf(log[drained], thread) && log[enqueued] == PinEnqueued(sent)
    case _ => true
  }

  ghost predicate LogInv(log: Log) {
    forall k | 0 <= k < |log| :: NoteInv(log, k)
  }

  // ---- Tickets: each confirmation is spent at most once -----------------------------------------------------

  function DeletedTickets(log: Log): seq<nat> {
    if log == [] then []
    else DeletedTickets(log[..|log| - 1]) + if log[|log| - 1].Deleted? then [log[|log| - 1].warrant.openedAt] else []
  }

  function QueuedTickets(requests: seq<Tagged>): seq<nat> {
    if requests == [] then []
    else (if requests[0].request.DeleteRequest? then [requests[0].warrant.openedAt] else []) + QueuedTickets(requests[1..])
  }

  function WorkerTicket(worker: WorkerAt): seq<nat> {
    match worker
    case Relocking(w) => [w.openedAt]
    case SpawningAssertion(DeleteAct(w)) => [w.openedAt]
    case Awaiting(DeleteAct(w), _) => [w.openedAt]
    case Acting(DeleteAct(w)) => [w.openedAt]
    case _ => []
  }

  function ScreenTicket(confirmation: Option<nat>): seq<nat> {
    if confirmation.Some? then [confirmation.value] else []
  }

  ghost predicate Increasing(s: seq<nat>) {
    forall i, j | 0 <= i < j < |s| :: s[i] < s[j]
  }

  /** All confirmations ever opened and still of consequence, oldest first: those spent, the one that the
      worker is serving, those queued, the one on screen. */
  function Tickets(s: State): seq<nat> {
    DeletedTickets(s.log) + WorkerTicket(s.worker) + QueuedTickets(s.requests) + ScreenTicket(s.confirmation)
  }

  ghost predicate Spendable(tickets: seq<nat>, bound: nat) {
    Increasing(tickets) && forall k | 0 <= k < |tickets| :: tickets[k] < bound
  }

  ghost predicate TicketInv(s: State) {
    Spendable(Tickets(s), |s.log|)
  }

  // ---- The invariant ------------------------------------------------------------------------------------------

  ghost predicate Inv(t: Popups.Tools, s: State) {
    && Popups.Consistent(t, s.ui)
    && MutexInv(s.threads, s.holder)
    && FlagInv(s.threads, s.worker, s.inFlight)
    && AnswersInv(s.answers, s.log)
    && PinInv(s.threads, s.answers, s.log)
    && ThreadInv(s.threads, s.log)
    && QueueInv(s.requests, s.log)
    && ConfirmInv(s.ui, s.confirmation, s.log)
    && WorkerInv(s.worker, s.threads, s.log)
    && LogInv(s.log)
    && TicketInv(s)
  }

  lemma StartHolds(t: Popups.Tools, session: Sessions.State)
    ensures Inv(t, Start(session))
  {
    Popups.InitialIsConsistent(t);
  }

  // ---- What a step touches ----------------------------------------------------------------------------

  /** History only grows, by one note at most. */
  lemma LogGrows(t: Popups.Tools, s: State, a: Action)
    requires Enabled(s, a)
    ensures var s' := Apply(t, s, a); s.log <= s'.log && |s'.log| <= |s.log| + 1
  {
    hide Popups.Step, Sessions.Unlock, Sessions.Tick, Sessions.ListSecrets, Sessions.OpenSecret, Sessions.MetaFor, Sessions.Add,
      Sessions.Update, Sessions.Delete, Sessions.Touch, RowOrder, Tag, Resolve;
    if a.WorkerRuns? {
      WorkerLog(s, a.env);
    } else if !a.UiActs? && ThreadEnabled(s, a) {
      ThreadFrame(s, a);
    }
  }

  lemma ResolveFrame(s: State, check: Check, state: UiLockState)
    ensures var s' := Resolve(s, check, state);
            && s'.threads == s.threads && s'.holder == s.holder && s'.inFlight == s.inFlight && s'.log == s.log
            && s'.answers == s.answers && s'.requests == s.requests && s'.ui == s.ui && s'.confirmation == s.confirmation
            && s'.session == s.session
            && !s'.worker.Spawning? && WorkerTicket(s'.worker) == [] && !s'.worker.Relocking? && !s'.worker.Awaiting?
            && (s'.worker.SpawningAssertion? ==> !s'.worker.next.DeleteAct?)
  {
  }

  lemma PerformFrame(s: State, act: Act, e: Env)
    requires RowOrder(s.session.tables, e.order)
    ensures var s' := Perform(s, act, e);
            && s'.threads == s.threads && s'.holder == s.holder && s'.inFlight == s.inFlight
            && s'.answers == s.answers && s'.requests == s.requests && s'.ui == s.ui && s'.confirmation == s.confirmation
            && !s'.worker.Spawning? && WorkerTicket(s'.worker) == [] && !s'.worker.Relocking? && !s'.worker.Awaiting?
            && !s'.worker.SpawningAssertion?
            && (s'.log == s.log || (act.DeleteAct? && s'.log == s.log + [Deleted(act.warrant)]))
  {
    hide Sessions.ListSecrets, Sessions.OpenSecret, Sessions.MetaFor, Sessions.Add, Sessions.Update, Sessions.Delete, Sessions.Touch, RowOrder;
  }

  lemma WorkerLog(s: State, e: Env)
    requires WorkerEnabled(s) && RowOrder(s.session.tables, e.order)
    ensures var s' := WorkerStep(s, e); s.log <= s'.log && |s'.log| <= |s.log| + 1
  {
    hide Sessions.Tick, Perform, Resolve, RowOrder;
    match s.worker {
      case ReadingFlag(check) => ResolveFrame(s, check, WaitingForTouch);
      case ReadingSession(check) =>
        var r := Sessions.Tick(s.session, e.clock.check);
        ResolveFrame(s.(session := r.0), check, ForUi(r.1));
      case Acting(act) => PerformFrame(s, act, e);
      case _ =>
    }
  }

  /** A thread's step changes that thread and what hangs on it. */
  lemma ThreadFrame(s: State, a: Action)
    requires ThreadEnabled(s, a)
    ensures var s' := ThreadStep(s, a);
            && |s'.threads| == |s.threads| && a.thread < |s.threads|
            && s'.threads == s.threads[a.thread := s'.threads[a.thread]]
            && s'.threads[a.thread].claimed == s.threads[a.thread].claimed
            && s'.threads[a.thread].spawned == s.threads[a.thread].spawned
            && s'.worker == s.worker && s'.requests == s.requests && s'.ui == s.ui && s'.confirmation == s.confirmation
            && (s'.log == s.log || exists n :: s'.log == s.log + [n] && !n.Deleted? && !n.ConfirmOpened?)
            && (!a.Release? ==> s'.inFlight == s.inFlight)
            && (!a.Release? ==> Outstanding(s'.threads[a.thread]) == Outstanding(s.threads[a.thread]))
  {
    hide Sessions.Unlock, Sessions.Tick, Sessions.ListSecrets, RowOrder;
    assert s.threads[a.thread := s.threads[a.thread]] == s.threads;
    match a {
      case Acquire(i) => assert ThreadStep(s, a).log == s.log + [AssertionBegan(i)];
      case DrainDone(i) => assert ThreadStep(s, a).log == s.log + [PinDrained(i, PinsWaiting(s.requests))];
      case ReceivePin(i) => assert ThreadStep(s, a).log == s.log + [PinReceived(i, s.threads[i].at.pin.mark, s.answers[0].sent, s.answers[0].at)];
      case Finish(i, who, now) =>
        assert ThreadStep(s, a).log == s.log + [AssertionEnded(i, Sessions.Unlock(s.session, who, now).1.Ok?)];
      case Release(i) => assert ThreadStep(s, a).log == s.log + [UnlockReleased(i)];
      case _ =>
    }
  }

  lemma MutexKept(t: Popups.Tools, s: State, a: Action)
    requires MutexInv(s.threads, s.holder) && Enabled(s, a)
    ensures var s' := Apply(t, s, a); MutexInv(s'.threads, s'.holder)
  {
    hide Popups.Step, RowOrder, Tag, UiEnabled, UiNote, WorkerStep, WorkerEnabled, ThreadEnabled, ThreadStep, Sessions.Lock, TakeHead;
    if a.WorkerRuns? {
      MutexKeptByWorker(s, a.env);
    } else if a.TakeRequest? {
      TakeKeepsThreads(s);
    } else if !a.UiActs? && ThreadEnabled(s, a) {
      MutexKeptByThread(s, a);
    }
  }

  lemma TakeKeepsThreads(s: State)
    requires s.requests != []
    ensures TakeHead(s).threads == s.threads && TakeHead(s).holder == s.holder
  {
  }

  lemma MutexKeptByThread(s: State, a: Action)
    requires MutexInv(s.threads, s.holder) && ThreadEnabled(s, a)
    ensures MutexInv(ThreadStep(s, a).threads, ThreadStep(s, a).holder)
  {
    hide Sessions.Unlock, Sessions.Tick, Sessions.ListSecrets, RowOrder;
  }

  lemma MutexKeptByWorker(s: State, e: Env)
    requires MutexInv(s.threads, s.holder) && WorkerEnabled(s) && RowOrder(s.session.tables, e.order)
    ensures MutexInv(WorkerStep(s, e).threads, WorkerStep(s, e).holder)
  {
    hide Sessions.Tick, Sessions.Lock, Perform, Resolve, RowOrder;
    match s.worker {
      case ReadingFlag(check) => ResolveFrame(s, check, WaitingForTouch);
      case ReadingSession(check) =>
        var r := Sessions.Tick(s.session, e.clock.check);
        ResolveFrame(s.(session := r.0), check, ForUi(r.1));
      case Acting(act) => PerformFrame(s, act, e);
      case _ =>
    }
  }

  lemma FlagKept(t: Popups.Tools, s: State, a: Action)
    requires FlagInv(s.threads, s.worker, s.inFlight) && WorkerInv(s.worker, s.threads, s.log) && Enabled(s, a)
    ensures var s' := Apply(t, s, a); FlagInv(s'.threads, s'.worker, s'.inFlight)
  {
    hide Popups.Step, RowOrder, Tag, UiEnabled, WorkerStep, WorkerEnabled, ThreadEnabled, ThreadStep, Sessions.Lock;
    if a.WorkerRuns? {
      FlagKeptByWorker(s, a.env);
    } else if !a.UiActs? && ThreadEnabled(s, a) {
      ThreadFrame(s, a);
      FlagKeptByThread(s, a);
    }
  }

  lemma FlagKeptByThread(s: State, a: Action)
    requires FlagInv(s.threads, s.worker, s.inFlight) && ThreadEnabled(s, a)
    ensures var s' := ThreadStep(s, a); FlagInv(s'.threads, s'.worker, s'.inFlight)
  {
    ThreadFrame(s, a);
    if a.Release? {
      assert Outstanding(s.threads[a.thread]);
      assert !Outstanding(ThreadStep(s, a).threads[a.thread]);
    } else {
      hide ThreadStep, ThreadEnabled, Outstanding;
      var s' := ThreadStep(s, a);
      assert forall i | 0 <= i < |s.threads| :: Outstanding(s'.threads[i]) == Outstanding(s.threads[i]);
    }
  }

  lemma FlagKeptByWorker(s: State, e: Env)
    requires FlagInv(s.threads, s.worker, s.inFlight) && WorkerEnabled(s) && RowOrder(s.session.tables, e.order)
    requires WorkerInv(s.worker, s.threads, s.log)
    ensures var s' := WorkerStep(s, e); FlagInv(s'.threads, s'.worker, s'.inFlight)
  {
    hide Sessions.Tick, Sessions.Lock, Perform, Resolve, RowOrder;
    var s' := WorkerStep(s, e);
    match s.worker {
      case ReadingFlag(check) => ResolveFrame(s, check, WaitingForTouch);
      case ReadingSession(check) =>
        var r := Sessions.Tick(s.session, e.clock.check);
        ResolveFrame(s.(session := r.0), check, ForUi(r.1));
      case Acting(act) => PerformFrame(s, act, e);
      case Awaiting(_, i) =>
        assert forall j | 0 <= j < |s.threads| :: Outstanding(s'.threads[j]) == Outstanding(s.threads[j]);
      case Spawning =>
        assert Outstanding(s'.threads[|s.threads|]);
        assert forall i | 0 <= i < |s.threads| :: s'.threads[i] == s.threads[i];
      case SpawningAssertion(_) =>
        assert forall i | 0 <= i < |s.threads| :: s'.threads[i] == s.threads[i];
        assert !Outstanding(s'.threads[|s.threads|]);
      case _ =>
    }
  }

  // ---- PINs and assertions are kept -----------------------------------------------------------------

  lemma PinsGrow(threads: seq<Thread>, answers: seq<Answer>, log: Log, log': Log)
    requires log <= log' && AnswersInv(answers, log) && PinInv(threads, answers, log)
    ensures AnswersInv(answers, log') && PinInv(threads, answers, log')
  {
  }

  lemma PinsKeptByThread(s: State, a: Action)
    requires AnswersInv(s.answers, s.log) && PinInv(s.threads, s.answers, s.log) && ThreadEnabled(s, a)
    ensures var s' := ThreadStep(s, a); AnswersInv(s'.answers, s'.log) && PinInv(s'.threads, s'.answers, s'.log)
  {
    PinsKeptByOne(s, a);
    ThreadFrame(s, a);
    hide ThreadStep, ThreadEnabled, Outstanding, DrainMark, PinOk;
    var s' := ThreadStep(s, a);
    forall j | 0 <= j < |s'.threads| && j != a.thread ensures PinOk(DrainMark(s'.threads[j]), j, s'.answers, s'.log) {
      assert s'.threads[j] == s.threads[j];
      assert PinOk(DrainMark(s.threads[j]), j, s.answers, s.log);
      PinOkGrows(DrainMark(s.threads[j]), j, s.answers, s.log, s'.answers, s'.log);
    }
  }

  lemma PinOkGrows(mark: Option<nat>, i: nat, answers: seq<Answer>, log: Log, answers': seq<Answer>, log': Log)
    requires PinOk(mark, i, answers, log) && log <= log'
    requires |answers'| <= |answers| && answers' == answers[|answers| - |answers'|..]
    ensures PinOk(mark, i, answers', log')
  {
  }

  /** A thread only takes answers, from the front. */
  lemma AnswersLeave(s: State, a: Action)
    requires ThreadEnabled(s, a)
    ensures var s' := ThreadStep(s, a);
            |s'.answers| <= |s.answers| && s'.answers == s.answers[|s.answers| - |s'.answers|..]
  {
    hide Sessions.Unlock, TailStep, RowOrder;
    if a.TailRuns? && !s.threads[a.thread].at.Asserting? {
      TailFrame(s, a.thread, a.env);
    }
  }

  lemma AnswersOfSuffix(answers: seq<Answer>, answers': seq<Answer>, log: Log, log': Log)
    requires AnswersInv(answers, log) && log <= log'
    requires |answers'| <= |answers| && answers' == answers[|answers| - |answers'|..]
    ensures AnswersInv(answers', log')
  {
    forall k | 0 <= k < |answers'|
      ensures answers'[k].at < |log'| && log'[answers'[k].at] == PinEnqueued(answers'[k].sent)
    {
      assert answers'[k] == answers[k + |answers| - |answers'|];
    }
  }

  /** The moving thread's own mark, and what is left in the channel. */
  lemma PinsKeptByOne(s: State, a: Action)
    requires AnswersInv(s.answers, s.log) && PinInv(s.threads, s.answers, s.log) && ThreadEnabled(s, a)
    ensures var s' := ThreadStep(s, a);
            && AnswersInv(s'.answers, s'.log) && a.thread < |s'.threads|
            && PinOk(DrainMark(s'.threads[a.thread]), a.thread, s'.answers, s'.log)
            && |s'.answers| <= |s.answers| && s'.answers == s.answers[|s.answers| - |s'.answers|..] && s.log <= s'.log
  {
    var i := a.thread;
    hide AnswersInv, PinOk, ThreadStep, ThreadEnabled, DrainMark, Outstanding;
    var s' := ThreadStep(s, a);
    AnswersLeave(s, a);
    ThreadFrame(s, a);
    AnswersOfSuffix(s.answers, s'.answers, s.log, s'.log);
    OnePinOk(s, i);
    MarkMoves(s, a);
    if DrainMark(s'.threads[i]) == DrainMark(s.threads[i]) {
      PinOkGrows(DrainMark(s.threads[i]), i, s.answers, s.log, s'.answers, s'.log);
    }
  }

  /** A thread keeps its mark, loses it, or sets it when the channel is empty. */
  lemma MarkMoves(s: State, a: Action)
    requires ThreadEnabled(s, a)
    ensures var s' := ThreadStep(s, a);
            && a.thread < |s'.threads| && a.thread < |s.threads|
            && (DrainMark(s'.threads[a.thread]) == DrainMark(s.threads[a.thread])
                || PinOk(DrainMark(s'.threads[a.thread]), a.thread, s'.answers, s'.log))
  {
    hide Sessions.Unlock, TailStep, RowOrder, Outstanding;
    if a.TailRuns? {
      TailFrame(s, a.thread, a.env);
    }
  }

  lemma OnePinOk(s: State, i: nat)
    requires PinInv(s.threads, s.answers, s.log) && i < |s.threads|
    ensures PinOk(DrainMark(s.threads[i]), i, s.answers, s.log)
  {
  }

  lemma TailFrame(s: State, i: nat, e: Env)
    requires At(s, i) && RowOrder(s.session.tables, e.order) && !s.threads[i].at.Asserting?
    ensures var s' := TailStep(s, i, e);
            && s'.answers == s.answers && s'.log == s.log && |s'.threads| == |s.threads| && !s'.threads[i].at.Asserting?
            && (s'.threads[i].at.Wanting? || s'.threads[i].at.Finished? ==> s' == s)
  {
    hide Sessions.Tick, Sessions.ListSecrets, RowOrder;
  }

  lemma PinsKeptByWorker(s: State, e: Env)
    requires AnswersInv(s.answers, s.log) && PinInv(s.threads, s.answers, s.log)
    requires WorkerEnabled(s) && RowOrder(s.session.tables, e.order)
    ensures var s' := WorkerStep(s, e); AnswersInv(s'.answers, s'.log) && PinInv(s'.threads, s'.answers, s'.log)
  {
    hide Sessions.Tick, Sessions.Lock, Perform, Resolve, RowOrder;
    var s' := WorkerStep(s, e);
    WorkerLog(s, e);
    match s.worker {
      case ReadingFlag(check) => ResolveFrame(s, check, WaitingForTouch);
      case ReadingSession(check) =>
        var r := Sessions.Tick(s.session, e.clock.check);
        ResolveFrame(s.(session := r.0), check, ForUi(r.1));
      case Acting(act) => PerformFrame(s, act, e);
      case _ =>
    }
    PinsGrow(s.threads, s.answers, s.log, s'.log);
    assert s'.answers == s.answers;
    assert forall j | 0 <= j < |s'.threads| :: DrainMark(s'.threads[j]) == None || (j < |s.threads| && s'.threads[j] == s.threads[j]);
    hide WorkerStep, WorkerEnabled, AnswersInv, DrainMark;
    forall j | 0 <= j < |s'.threads| ensures PinOk(DrainMark(s'.threads[j]), j, s'.answers, s'.log) {
      if DrainMark(s'.threads[j]).Some? {
        assert PinOk(DrainMark(s.threads[j]), j, s.answers, s'.log);
      }
    }
  }

  lemma PinsKept(t: Popups.Tools, s: State, a: Action)
    requires AnswersInv(s.answers, s.log) && PinInv(s.threads, s.answers, s.log) && Enabled(s, a)
    ensures var s' := Apply(t, s, a); AnswersInv(s'.answers, s'.log) && PinInv(s'.threads, s'.answers, s'.log)
  {
    hide Popups.Step, RowOrder, Tag, UiEnabled, UiNote, WorkerStep, WorkerEnabled, ThreadEnabled, ThreadStep, Sessions.Lock;
    if a.WorkerRuns? {
      PinsKeptByWorker(s, a.env);
    } else if a.UiActs? {
      PinsGrow(s.threads, s.answers, s.log, Apply(t, s, a).log);
    } else if a.TakeRequest? {
      PinsGrow(s.threads, s.answers, s.log, TakeHead(s).log);
    } else if ThreadEnabled(s, a) {
      PinsKeptByThread(s, a);
    }
  }

  lemma ThreadsGrow(threads: seq<Thread>, log: Log, log': Log)
    requires log <= log' && ThreadInv(threads, log)
    ensures ThreadInv(threads, log')
  {
  }

  lemma ThreadsKept(t: Popups.Tools, s: State, a: Action)
    requires ThreadInv(s.threads, s.log) && Enabled(s, a)
    ensures var s' := Apply(t, s, a); ThreadInv(s'.threads, s'.log)
  {
    hide Popups.Step, RowOrder, Tag, UiEnabled, UiNote, WorkerStep, WorkerEnabled, ThreadEnabled, ThreadStep, Sessions.Lock;
    LogGrows(t, s, a);
    var s' := Apply(t, s, a);
    ThreadsGrow(s.threads, s.log, s'.log);
    if a.WorkerRuns? {
      ThreadsKeptByWorker(s, a.env);
    } else if !a.UiActs? && ThreadEnabled(s, a) {
      ThreadsKeptByThread(s, a);
    }
  }

  lemma ThreadsKeptByThread(s: State, a: Action)
    requires ThreadInv(s.threads, s.log) && ThreadEnabled(s, a)
    ensures ThreadInv(ThreadStep(s, a).threads, ThreadStep(s, a).log)
  {
    hide Sessions.Unlock, Sessions.Tick, Sessions.ListSecrets, RowOrder, Outstanding;
    ThreadFrame(s, a);
    var s' := ThreadStep(s, a);
    ThreadsGrow(s.threads, s.log, s'.log);
    assert forall j | 0 <= j < |s.threads| && j != a.thread :: s'.threads[j] == s.threads[j];
    assert ThreadOk(s.threads[a.thread], a.thread, s'.log);
  }

  lemma ThreadsKeptByWorker(s: State, e: Env)
    requires ThreadInv(s.threads, s.log) && WorkerEnabled(s) && RowOrder(s.session.tables, e.order)
    ensures ThreadInv(WorkerStep(s, e).threads, WorkerStep(s, e).log)
  {
    hide Sessions.Tick, Sessions.Lock, Perform, Resolve, RowOrder;
    var s' := WorkerStep(s, e);
    WorkerLog(s, e);
    ThreadsGrow(s.threads, s.log, s'.log);
    match s.worker {
      case ReadingFlag(check) => ResolveFrame(s, check, WaitingForTouch);
      case ReadingSession(check) =>
        var r := Sessions.Tick(s.session, e.clock.check);
        ResolveFrame(s.(session := r.0), check, ForUi(r.1));
      case Acting(act) => PerformFrame(s, act, e);
      case _ =>
    }
    forall j | 0 <= j < |s'.threads| ensures ThreadOk(s'.threads[j], j, s'.log) {
      if j < |s.threads| {
        assert ThreadOk(s.threads[j], j, s'.log);
      }
    }
  }

  // ---- Warrants are kept -------------------------------------------------------------------------------

  lemma WarrantsGrow(s: State, log': Log)
    requires s.log <= log'
    ensures QueueInv(s.requests, s.log) ==> QueueInv(s.requests, log')
    ensures ConfirmInv(s.ui, s.confirmation, s.log) ==> ConfirmInv(s.ui, s.confirmation, log')
    ensures WorkerInv(s.worker, s.threads, s.log) ==> WorkerInv(s.worker, s.threads, log')
  {
  }

  /** What a step of the popup does to its confirmation and its requests. */
  lemma UiTags(t: Popups.Tools, s: State, step: Popups.UiStep)
    requires UiEnabled(s, step) && ConfirmInv(s.ui, s.confirmation, s.log)
    ensures var r := Popups.Step(t, s.ui, step);
            var s' := UiStep(t, s, step);
            && ConfirmInv(s'.ui, s'.confirmation, s'.log)
            && QueueInv(Tag(s, r.sent), s'.log)
            && (Opens(s.ui, r.state) ==>
                  && QueuedTickets(Tag(s, r.sent)) == [] && s.confirmation.None?
                  && s'.log == s.log + [ConfirmOpened(r.state.mode.id, r.state.mode.name, r.state.ranked)]
                  && Popups.ListsAs(r.state, r.state.mode.id, r.state.mode.name))
            && (!Opens(s.ui, r.state) ==>
                  || (QueuedTickets(Tag(s, r.sent)) == [] && s'.confirmation in {None, s.confirmation} && s'.log in {s.log, s.log + [PinSent]})
                  || (s.confirmation.Some? && QueuedTickets(Tag(s, r.sent)) == [s.confirmation.value] && s'.confirmation == None
                      && exists id: Uuid :: s'.log == s.log + [ConfirmAccepted(s.confirmation.value, id)]))
  {
    hide Popups.Step, QueuedTickets;
    var r := Popups.Step(t, s.ui, step);
    Popups.SentIsJustified(t, s.ui, step);
    Popups.ConfirmationsAreOpenedFromTheList(t, s.ui, step);
    Popups.AtMostOneDelete(t, s.ui, step);
    if m :| m in r.sent && m.DeleteRequest? {
      assert Popups.Asks(m);
      assert Popups.MaySend(s.ui, r.state, m);
      assert r.sent == [m];
      SingleTicket(Tag(s, r.sent)[0]);
      assert Tag(s, r.sent) == [Tag(s, r.sent)[0]];
      assert UiStep(t, s, step).log == s.log + [ConfirmAccepted(s.confirmation.value, m.id)];
    } else {
      NoTickets(Tag(s, r.sent));
      if !Opens(s.ui, r.state) {
        NoDeletionNoted(s, r);
      }
    }
  }

  lemma NoDeletionNoted(s: State, r: Popups.Stepped)
    requires !Opens(s.ui, r.state) && forall m | m in r.sent :: !m.DeleteRequest?
    ensures s.log + UiNote(s, r) in {s.log, s.log + [PinSent]}
  {
    assert s.log + [] == s.log;
  }

  lemma SingleTicket(q: Tagged)
    ensures QueuedTickets([q]) == if q.request.DeleteRequest? then [q.warrant.openedAt] else []
  {
    assert [q][1..] == [];
  }

  lemma {:induction false} NoTickets(requests: seq<Tagged>)
    requires forall k | 0 <= k < |requests| :: !requests[k].request.DeleteRequest?
    ensures QueuedTickets(requests) == []
    decreases |requests|
  {
    if requests != [] {
      NoTickets(requests[1..]);
    }
  }

  lemma WarrantsKeptByUi(t: Popups.Tools, s: State, step: Popups.UiStep)
    requires UiEnabled(s, step) && ConfirmInv(s.ui, s.confirmation, s.log) && QueueInv(s.requests, s.log)
    requires WorkerInv(s.worker, s.threads, s.log)
    ensures var s' := UiStep(t, s, step);
            && ConfirmInv(s'.ui, s'.confirmation, s'.log) && QueueInv(s'.requests, s'.log)
            && WorkerInv(s'.worker, s'.threads, s'.log)
  {
    hide Popups.Step, Tag, QueuedTickets, Popups.ListsAs;
    UiTags(t, s, step);
    WarrantsGrow(s, UiStep(t, s, step).log);
  }

  lemma WarrantsKeptByWorker(s: State, e: Env)
    requires WorkerEnabled(s) && RowOrder(s.session.tables, e.order)
    requires WorkerInv(s.worker, s.threads, s.log) && ThreadInv(s.threads, s.log)
    ensures var s' := WorkerStep(s, e);
            WorkerInv(s'.worker, s'.threads, s'.log)
  {
    hide Sessions.Tick, Sessions.Lock, Perform, Resolve, RowOrder;
    var s' := WorkerStep(s, e);
    match s.worker {
      case ReadingFlag(check) => ResolveFrame(s, check, WaitingForTouch);
      case ReadingSession(check) =>
        var r := Sessions.Tick(s.session, e.clock.check);
        ResolveFrame(s.(session := r.0), check, ForUi(r.1));
      case Acting(act) => PerformFrame(s, act, e);
      case Awaiting(next, i) => assert ThreadOk(s.threads[i], i, s.log);
      case _ =>
    }
  }

  lemma WarrantsKept(t: Popups.Tools, s: State, a: Action)
    requires Enabled(s, a) && ConfirmInv(s.ui, s.confirmation, s.log) && QueueInv(s.requests, s.log)
    requires WorkerInv(s.worker, s.threads, s.log) && ThreadInv(s.threads, s.log)
    ensures var s' := Apply(t, s, a);
            && ConfirmInv(s'.ui, s'.confirmation, s'.log) && QueueInv(s'.requests, s'.log)
            && WorkerInv(s'.worker, s'.threads, s'.log)
  {
    hide Popups.Step, RowOrder, Tag, UiEnabled, UiNote, UiStep, WorkerStep, WorkerEnabled, ThreadEnabled, ThreadStep, Sessions.Lock,
      TakeHead, QueueInv, ConfirmInv, WorkerInv, ThreadInv;
    LogGrows(t, s, a);
    var s' := Apply(t, s, a);
    WarrantsGrow(s, s'.log);
    if a.WorkerRuns? {
      WarrantsKeptByWorker(s, a.env);
      WorkerFrame(s, a.env);
    } else if a.UiActs? {
      WarrantsKeptByUi(t, s, a.step);
    } else if a.TakeRequest? {
      WarrantsKeptByTake(s);
    } else if a.HotkeyPressed? || a.TickerFires? || a.ShutdownAsked? {
      NoWarrantToStart(t, s, a);
    } else {
      WarrantsKeptByThread(s, a);
    }
  }

  lemma NoWarrantToStart(t: Popups.Tools, s: State, a: Action)
    requires Enabled(s, a) && (a.HotkeyPressed? || a.TickerFires? || a.ShutdownAsked?)
    ensures var s' := Apply(t, s, a);
            WorkerInv(s'.worker, s'.threads, s'.log) && s'.ui == s.ui && s'.confirmation == s.confirmation && s'.requests == s.requests
  {
  }

  lemma WarrantsKeptByTake(s: State)
    requires s.worker.Idle? && s.requests != []
    requires ConfirmInv(s.ui, s.confirmation, s.log) && QueueInv(s.requests, s.log)
    ensures var s' := TakeHead(s);
            && ConfirmInv(s'.ui, s'.confirmation, s'.log) && QueueInv(s'.requests, s'.log)
            && WorkerInv(s'.worker, s'.threads, s'.log)
  {
    WarrantsGrow(s, TakeHead(s).log);
    assert QueueInv(s.requests[1..], s.log);
  }

  lemma WarrantsKeptByThread(s: State, a: Action)
    requires ThreadEnabled(s, a) && ConfirmInv(s.ui, s.confirmation, s.log) && QueueInv(s.requests, s.log)
    requires WorkerInv(s.worker, s.threads, s.log)
    ensures var s' := ThreadStep(s, a);
            && ConfirmInv(s'.ui, s'.confirmation, s'.log) && QueueInv(s'.requests, s'.log)
            && WorkerInv(s'.worker, s'.threads, s'.log)
  {
    ThreadFrame(s, a);
    hide ThreadStep, ThreadEnabled, QueueInv, ConfirmInv;
    var s' := ThreadStep(s, a);
    WarrantsGrow(s, s'.log);
  }

  lemma WorkerFrame(s: State, e: Env)
    requires WorkerEnabled(s) && RowOrder(s.session.tables, e.order)
    ensures var s' := WorkerStep(s, e);
            s'.requests == s.requests && s'.ui == s.ui && s'.confirmation == s.confirmation
  {
    hide Sessions.Tick, Sessions.Lock, Perform, Resolve, RowOrder;
    match s.worker {
      case ReadingFlag(check) => ResolveFrame(s, check, WaitingForTouch);
      case ReadingSession(check) =>
        var r := Sessions.Tick(s.session, e.clock.check);
        ResolveFrame(s.(session := r.0), check, ForUi(r.1));
      case Acting(act) => PerformFrame(s, act, e);
      case _ =>
    }
  }

  // ---- The log is kept -----------------------------------------------------------------------------------

  lemma NoteGrows(log: Log, log': Log, k: nat)
    requires log <= log' && k < |log| && NoteInv(log, k)
    ensures NoteInv(log', k)
  {
  }

  lemma LogSnoc(log: Log, n: Note)
    requires LogInv(log) && NoteInv(log + [n], |log|)
    ensures LogInv(log + [n])
  {
    forall k | 0 <= k < |log| ensures NoteInv(log + [n], k) {
      NoteGrows(log, log + [n], k);
    }
  }

  lemma LogKeptByUi(t: Popups.Tools, s: State, step: Popups.UiStep)
    requires LogInv(s.log) && UiEnabled(s, step) && ConfirmInv(s.ui, s.confirmation, s.log)
    ensures LogInv(UiStep(t, s, step).log)
  {
    hide Popups.Step, Tag, QueuedTickets, LogInv;
    UiTags(t, s, step);
    var s', r := UiStep(t, s, step), Popups.Step(t, s.ui, step);
    if Opens(s.ui, r.state) {
      LogSnoc(s.log, ConfirmOpened(r.state.mode.id, r.state.mode.name, r.state.ranked));
    } else if s'.log == s.log + [PinSent] {
      LogSnoc(s.log, PinSent);
    } else if s'.log != s.log {
      var id: Uuid :| s'.log == s.log + [ConfirmAccepted(s.confirmation.value, id)];
      LogSnoc(s.log, ConfirmAccepted(s.confirmation.value, id));
    }
  }

  lemma LogKeptByThread(s: State, a: Action)
    requires LogInv(s.log) && ThreadEnabled(s, a)
    requires AnswersInv(s.answers, s.log) && PinInv(s.threads, s.answers, s.log)
    ensures LogInv(ThreadStep(s, a).log)
  {
    hide Sessions.Unlock, Sessions.Tick, Sessions.ListSecrets, RowOrder, Outstanding, LogInv;
    ThreadFrame(s, a);
    var s' := ThreadStep(s, a);
    if s'.log != s.log {
      assert PinOk(DrainMark(s.threads[a.thread]), a.thread, s.answers, s.log);
      var n :| s'.log == s.log + [n] && !n.Deleted? && !n.ConfirmOpened?;
      assert s'.log[|s.log|] == n;
      LogSnoc(s.log, n);
    }
  }

  lemma LogKeptByWorker(s: State, e: Env)
    requires LogInv(s.log) && WorkerEnabled(s) && RowOrder(s.session.tables, e.order) && WorkerInv(s.worker, s.threads, s.log)
    ensures LogInv(WorkerStep(s, e).log)
  {
    hide Sessions.Tick, Sessions.Lock, Perform, Resolve, RowOrder, LogInv;
    match s.worker {
      case ReadingFlag(check) => ResolveFrame(s, check, WaitingForTouch);
      case ReadingSession(check) =>
        var r := Sessions.Tick(s.session, e.clock.check);
        ResolveFrame(s.(session := r.0), check, ForUi(r.1));
      case Acting(act) =>
        PerformFrame(s, act, e);
        if act.DeleteAct? {
          LogSnoc(s.log, Deleted(act.warrant));
        }
      case Claiming => LogSnoc(s.log, UnlockClaimed);
      case Relocking(w) => LogSnoc(s.log, Relocked(w.acceptedAt, w.id));
      case _ =>
    }
  }

  lemma LogKept(t: Popups.Tools, s: State, a: Action)
    requires Inv(t, s) && Enabled(s, a)
    ensures LogInv(Apply(t, s, a).log)
  {
    hide Popups.Step, RowOrder, Tag, UiEnabled, UiNote, UiStep, WorkerStep, WorkerEnabled, ThreadEnabled, ThreadStep, Sessions.Lock,
      LogInv, TicketInv, WorkerInv, FlagInv, MutexInv, ThreadInv, PinInv, AnswersInv, QueueInv, ConfirmInv, Popups.Consistent, Warranted;
    if a.WorkerRuns? {
      LogKeptByWorker(s, a.env);
    } else if a.UiActs? {
      LogKeptByUi(t, s, a.step);
    } else if a.TakeRequest? {
      LogSnoc(s.log, PinEnqueued(s.requests[0].sent));
    } else if ThreadEnabled(s, a) {
      LogKeptByThread(s, a);
    }
  }

  // ---- Tickets are kept ------------------------------------------------------------------------------------

  lemma DeletedSnoc(log: Log, n: Note)
    ensures DeletedTickets(log + [n]) == DeletedTickets(log) + if n.Deleted? then [n.warrant.openedAt] else []
  {
    assert (log + [n])[..|log|] == log;
  }

  lemma {:induction false} QueuedConcat(a: seq<Tagged>, b: seq<Tagged>)
    ensures QueuedTickets(a + b) == QueuedTickets(a) + QueuedTickets(b)
    decreases |a|
  {
    if a == [] {
      assert a + b == b;
    } else {
      assert (a + b)[1..] == a[1..] + b && (a + b)[0] == a[0];
      QueuedConcat(a[1..], b);
      var head := if a[0].request.DeleteRequest? then [a[0].warrant.openedAt] else [];
      assert QueuedTickets(a + b) == head + QueuedTickets((a + b)[1..]);
      assert head + (QueuedTickets(a[1..]) + QueuedTickets(b)) == head + QueuedTickets(a[1..]) + QueuedTickets(b);
    }
  }

  lemma SpendableSnoc(tickets: seq<nat>, bound: nat, bound': nat)
    requires Spendable(tickets, bound) && bound < bound'
    ensures Spendable(tickets + [bound], bound')
  {
  }

  lemma SpendableLonger(tickets: seq<nat>, bound: nat, bound': nat)
    requires Spendable(tickets, bound) && bound <= bound'
    ensures Spendable(tickets, bound')
  {
  }

  lemma SpendableDrop(a: seq<nat>, x: seq<nat>, b: seq<nat>, bound: nat, bound': nat)
    requires Spendable(a + x + b, bound) && bound <= bound'
    ensures Spendable(a + b, bound')
  {
    var all := a + x + b;
    assert forall k | 0 <= k < |a + b| :: (a + b)[k] == all[if k < |a| then k else k + |x|];
  }

  lemma TicketsKeptByUi(t: Popups.Tools, s: State, step: Popups.UiStep)
    requires TicketInv(s) && UiEnabled(s, step) && ConfirmInv(s.ui, s.confirmation, s.log)
    ensures TicketInv(UiStep(t, s, step))
  {
    hide Popups.Step, Tag, QueuedTickets, DeletedTickets, WorkerTicket, Popups.ListsAs;
    UiTags(t, s, step);
    var s', r := UiStep(t, s, step), Popups.Step(t, s.ui, step);
    var d, w, q := DeletedTickets(s.log), WorkerTicket(s.worker), QueuedTickets(s.requests);
    QueuedConcat(s.requests, Tag(s, r.sent));
    if s'.log != s.log {
      DeletedSnoc(s.log, s'.log[|s.log|]);
      assert s'.log == s.log + [s'.log[|s.log|]];
    }
    assert Spendable(d + w + q + ScreenTicket(s.confirmation), |s.log|);
    if Opens(s.ui, r.state) {
      assert d + w + q + ScreenTicket(s.confirmation) == d + w + q;
      assert QueuedTickets(s'.requests) == q;
      SpendableSnoc(d + w + q, |s.log|, |s'.log|);
      assert Tickets(s') == d + w + q + [|s.log|];
    } else if s'.log != s.log && s'.log != s.log + [PinSent] {
      assert Tickets(s') == d + w + (q + [s.confirmation.value]) + [] == d + w + q + ScreenTicket(s.confirmation);
    } else {
      assert QueuedTickets(s'.requests) == q && DeletedTickets(s'.log) == d by {
        assert d + [] == d && q + [] == q;
      }
      SpendableLonger(Tickets(s), |s.log|, |s'.log|);
      assert d + w + q + ScreenTicket(s.confirmation) + [] == Tickets(s);
      SpendableDrop(d + w + q, ScreenTicket(s.confirmation), [], |s.log|, |s'.log|);
    }
  }

  lemma TakeFrame(s: State)
    requires s.worker.Idle? && s.requests != []
    ensures var s' := TakeHead(s);
            && (s'.log == s.log || s'.log == s.log + [PinEnqueued(s.requests[0].sent)])
            && s'.confirmation == s.confirmation && s'.requests == s.requests[1..]
            && (WorkerTicket(s'.worker) == []
                || (s.requests[0].request.DeleteRequest? && WorkerTicket(s'.worker) == [s.requests[0].warrant.openedAt]))
  {
  }

  /** Taking a request moves its ticket to the worker, or drops it as `x`. */
  lemma TakeTickets(s: State) returns (x: seq<nat>)
    requires s.worker.Idle? && s.requests != []
    ensures var s' := TakeHead(s);
            && DeletedTickets(s'.log) == DeletedTickets(s.log) && s'.confirmation == s.confirmation && |s.log| <= |s'.log|
            && QueuedTickets(s.requests) == x + (WorkerTicket(s'.worker) + QueuedTickets(s'.requests))
  {
    hide TakeHead, DeletedTickets, WorkerTicket;
    TakeFrame(s);
    DeletedSnoc(s.log, PinEnqueued(s.requests[0].sent));
    assert DeletedTickets(s.log) + [] == DeletedTickets(s.log);
    var rest := QueuedTickets(s.requests[1..]);
    var w := WorkerTicket(TakeHead(s).worker);
    if w == [] && s.requests[0].request.DeleteRequest? {
      x := [s.requests[0].warrant.openedAt];
    } else {
      x := [];
    }
    assert x + (w + rest) == x + w + rest;
  }

  lemma TicketsKeptByTake(s: State)
    requires TicketInv(s) && s.worker.Idle? && s.requests != []
    ensures TicketInv(TakeHead(s))
  {
    var x := TakeTickets(s);
    assert WorkerTicket(s.worker) == [];
    hide TakeHead, DeletedTickets, QueuedTickets, ScreenTicket, WorkerTicket, Spendable;
    var s' := TakeHead(s);
    var d, c := DeletedTickets(s.log), ScreenTicket(s.confirmation);
    assert Tickets(s) == d + [] + QueuedTickets(s.requests) + c == d + QueuedTickets(s.requests) + c by {
      assert d + [] == d;
    }
    MoveTicket(d, x, WorkerTicket(s'.worker), QueuedTickets(s'.requests), c, |s.log|, |s'.log|);
  }

  lemma MoveTicket(d: seq<nat>, x: seq<nat>, w: seq<nat>, q: seq<nat>, c: seq<nat>, bound: nat, bound': nat)
    requires Spendable(d + (x + (w + q)) + c, bound) && bound <= bound'
    ensures Spendable(d + w + q + c, bound')
  {
    assert d + (x + (w + q)) + c == d + x + (w + q + c);
    SpendableDrop(d, x, w + q + c, bound, bound');
    assert d + (w + q + c) == d + w + q + c;
  }

  /** A worker step keeps its ticket, spends it on a deletion, or drops it. */
  lemma WorkerTickets(s: State, e: Env)
    requires WorkerEnabled(s) && RowOrder(s.session.tables, e.order)
    ensures var s' := WorkerStep(s, e);
            || (DeletedTickets(s'.log) == DeletedTickets(s.log) && WorkerTicket(s'.worker) == WorkerTicket(s.worker))
            || (DeletedTickets(s'.log) == DeletedTickets(s.log) + WorkerTicket(s.worker) && WorkerTicket(s'.worker) == [])
            || (DeletedTickets(s'.log) == DeletedTickets(s.log) && WorkerTicket(s'.worker) == [])
  {
    hide Sessions.Tick, Sessions.Lock, Perform, Resolve, RowOrder, DeletedTickets;
    match s.worker {
      case ReadingFlag(check) => ResolveFrame(s, check, WaitingForTouch);
      case ReadingSession(check) =>
        var r := Sessions.Tick(s.session, e.clock.check);
        ResolveFrame(s.(session := r.0), check, ForUi(r.1));
      case Acting(act) =>
        PerformFrame(s, act, e);
        if act.DeleteAct? {
          DeletedSnoc(s.log, Deleted(act.warrant));
        }
      case Claiming => DeletedSnoc(s.log, UnlockClaimed);
      case Relocking(w) => DeletedSnoc(s.log, Relocked(w.acceptedAt, w.id));
      case _ =>
    }
  }

  lemma TicketsKeptByWorker(s: State, e: Env)
    requires TicketInv(s) && WorkerEnabled(s) && RowOrder(s.session.tables, e.order)
    ensures TicketInv(WorkerStep(s, e))
  {
    hide WorkerStep, WorkerEnabled, DeletedTickets, QueuedTickets, WorkerTicket, RowOrder;
    WorkerTickets(s, e);
    WorkerFrame(s, e);
    WorkerLog(s, e);
    var s' := WorkerStep(s, e);
    var d, w := DeletedTickets(s.log), WorkerTicket(s.worker);
    var rest := QueuedTickets(s.requests) + ScreenTicket(s.confirmation);
    assert Tickets(s) == d + w + rest;
    SpendableDrop(d, w, rest, |s.log|, |s'.log|);
    SpendableLonger(Tickets(s), |s.log|, |s'.log|);
    assert d + [] + rest == d + rest;
    assert Tickets(s') == DeletedTickets(s'.log) + WorkerTicket(s'.worker) + rest;
    assert Tickets(s') in {d + w + rest, d + rest} by {
      assert d + w + [] + rest == d + w + rest;
    }
  }

  lemma TicketsKeptByThread(s: State, a: Action)
    requires TicketInv(s) && ThreadEnabled(s, a)
    ensures TicketInv(ThreadStep(s, a))
  {
    ThreadFrame(s, a);
    hide ThreadStep, ThreadEnabled, DeletedTickets, QueuedTickets, WorkerTicket, ScreenTicket;
    var s' := ThreadStep(s, a);
    if s'.log != s.log {
      var n :| s'.log == s.log + [n] && !n.Deleted? && !n.ConfirmOpened?;
      DeletedSnoc(s.log, n);
      assert DeletedTickets(s.log) + [] == DeletedTickets(s.log);
    }
    assert Tickets(s') == Tickets(s);
    SpendableLonger(Tickets(s), |s.log|, |s'.log|);
  }

  lemma StartsWithoutTicket(t: Popups.Tools, s: State, a: Action)
    requires Enabled(s, a) && (a.HotkeyPressed? || a.TickerFires? || a.ShutdownAsked?)
    ensures s.worker.Idle? && WorkerTicket(Apply(t, s, a).worker) == [] && Apply(t, s, a) == s.(worker := Apply(t, s, a).worker)
  {
  }

  lemma TicketsKeptByStart(s: State, worker: WorkerAt)
    requires TicketInv(s) && s.worker.Idle? && WorkerTicket(worker) == []
    ensures TicketInv(s.(worker := worker))
  {
    hide DeletedTickets, QueuedTickets, ScreenTicket;
    assert Tickets(s.(worker := worker)) == Tickets(s);
  }

  lemma TicketsKept(t: Popups.Tools, s: State, a: Action)
    requires Inv(t, s) && Enabled(s, a)
    ensures TicketInv(Apply(t, s, a))
  {
    hide Popups.Step, RowOrder, Tag, UiEnabled, UiNote, UiStep, WorkerStep, WorkerEnabled, ThreadEnabled, ThreadStep, Sessions.Lock,
      LogInv, DeletedTickets, QueuedTickets, TakeHead, WorkerInv, FlagInv, MutexInv, ThreadInv, PinInv, AnswersInv,
      QueueInv, ConfirmInv, Popups.Consistent, Outstanding, WorkerTicket, ScreenTicket, TicketInv;
    if a.WorkerRuns? {
      TicketsKeptByWorker(s, a.env);
    } else if a.UiActs? {
      TicketsKeptByUi(t, s, a.step);
    } else if a.TakeRequest? {
      TicketsKeptByTake(s);
    } else if a.HotkeyPressed? || a.TickerFires? || a.ShutdownAsked? {
      StartsWithoutTicket(t, s, a);
      TicketsKeptByStart(s, Apply(t, s, a).worker);
    } else {
      TicketsKeptByThread(s, a);
    }
  }

  lemma PopupKept(t: Popups.Tools, s: State, a: Action)
    requires Inv(t, s) && Enabled(s, a)
    ensures Popups.Consistent(t, Apply(t, s, a).ui)
  {
    hide Popups.Step, RowOrder, Tag, UiNote, WorkerStep, WorkerEnabled, ThreadEnabled, ThreadStep, Sessions.Lock, Popups.Consistent,
      LogInv, TicketInv, WorkerInv, FlagInv, MutexInv, ThreadInv, PinInv, AnswersInv;
    if a.WorkerRuns? {
      WorkerFrame(s, a.env);
    } else if a.UiActs? {
      Popups.StepKeepsConsistent(t, s.ui, a.step);
    } else if ThreadEnabled(s, a) {
      ThreadFrame(s, a);
    }
  }

  /** Every step of every party keeps the invariant. */
  lemma StepKeeps(t: Popups.Tools, s: State, a: Action)
    requires Inv(t, s) && Enabled(s, a)
    ensures Inv(t, Apply(t, s, a))
  {
    hide Apply, Enabled, Popups.Consistent, MutexInv, FlagInv, AnswersInv, PinInv, ThreadInv, QueueInv, ConfirmInv, WorkerInv, LogInv, TicketInv;
    PopupKept(t, s, a);
    MutexKept(t, s, a);
    FlagKept(t, s, a);
    PinsKept(t, s, a);
    ThreadsKept(t, s, a);
    WarrantsKept(t, s, a);
    LogKept(t, s, a);
    TicketsKept(t, s, a);
  }

  lemma {:induction false} RunKeeps(t: Popups.Tools, s: State, actions: seq<Action>)
    requires Inv(t, s) && ValidRun(t, s, actions)
    ensures Inv(t, Run(t, s, actions))
    decreases |actions|
  {
    hide Inv, Apply, Enabled;
    if actions != [] {
      StepKeeps(t, s, actions[0]);
      RunKeeps(t, Apply(t, s, actions[0]), actions[1..]);
    }
  }

  // ---- Counting claims and assertions ------------------------------------------------------------------------

  /** Assertions begun and not ended, and claims made and not released, over a stretch of history. */
  function Running(log: Log): int {
    if log == [] then 0
    else Running(log[..|log| - 1])
         + (if log[|log| - 1].AssertionBegan? then 1 else if log[|log| - 1].AssertionEnded? then -1 else 0)
  }

  function Claims(log: Log): int {
    if log == [] then 0
    else Claims(log[..|log| - 1])
         + (if log[|log| - 1].UnlockClaimed? then 1 else if log[|log| - 1].UnlockReleased? then -1 else 0)
  }

  /** At no time was more than one assertion running or more than one claim held. */
  ghost predicate CountInv(s: State) {
    && Running(s.log) == (if s.holder.Some? then 1 else 0)
    && Claims(s.log) == (if s.inFlight then 1 else 0)
    && forall k | 0 <= k <= |s.log| :: 0 <= Running(s.log[..k]) <= 1 && 0 <= Claims(s.log[..k]) <= 1
  }

  ghost predicate Counted(s: State, s': State) {
    || (s'.log == s.log && s'.holder == s.holder && s'.inFlight == s.inFlight)
    || exists n :: && s'.log == s.log + [n]
                   && (if n.AssertionBegan? then s.holder.None? && s'.holder.Some?
                       else if n.AssertionEnded? then s.holder.Some? && s'.holder.None?
                       else s'.holder == s.holder)
                   && (if n.UnlockClaimed? then !s.inFlight && s'.inFlight
                       else if n.UnlockReleased? then s.inFlight && !s'.inFlight
                       else s'.inFlight == s.inFlight)
  }

  lemma CountSnoc(log: Log, n: Note)
    ensures Running(log + [n]) == Running(log) + (if n.AssertionBegan? then 1 else if n.AssertionEnded? then -1 else 0)
    ensures Claims(log + [n]) == Claims(log) + (if n.UnlockClaimed? then 1 else if n.UnlockReleased? then -1 else 0)
  {
    assert (log + [n])[..|log|] == log;
  }

  lemma CountedKeeps(s: State, s': State)
    requires CountInv(s) && Counted(s, s')
    ensures CountInv(s')
  {
    hide Running, Claims;
    if s'.log != s.log {
      var n := s'.log[|s.log|];
      assert s'.log == s.log + [n];
      CountSnoc(s.log, n);
      forall k | 0 <= k <= |s'.log| ensures 0 <= Running(s'.log[..k]) <= 1 && 0 <= Claims(s'.log[..k]) <= 1 {
        if k <= |s.log| {
          assert s'.log[..k] == s.log[..k];
        } else {
          assert s'.log[..k] == s'.log;
        }
      }
    }
  }

  lemma CountedByThread(s: State, a: Action)
    requires ThreadEnabled(s, a) && MutexInv(s.threads, s.holder) && FlagInv(s.threads, s.worker, s.inFlight)
    ensures Counted(s, ThreadStep(s, a))
  {
    hide Sessions.Unlock, Sessions.Tick, Sessions.ListSecrets, RowOrder;
    var s' := ThreadStep(s, a);
    if s'.log != s.log {
      assert s'.log == s.log + [s'.log[|s.log|]];
      assert a.Release? ==> Outstanding(s.threads[a.thread]);
    }
  }

  lemma CountedByWorker(s: State, e: Env)
    requires WorkerEnabled(s) && RowOrder(s.session.tables, e.order)
    ensures Counted(s, WorkerStep(s, e))
  {
    hide Sessions.Tick, Sessions.Lock, Perform, Resolve, RowOrder;
    match s.worker {
      case ReadingFlag(check) => ResolveFrame(s, check, WaitingForTouch);
      case ReadingSession(check) =>
        var r := Sessions.Tick(s.session, e.clock.check);
        ResolveFrame(s.(session := r.0), check, ForUi(r.1));
      case Acting(act) => PerformFrame(s, act, e);
      case Claiming => assert s.inFlight || WorkerStep(s, e).log == s.log + [UnlockClaimed];
      case Relocking(w) => assert WorkerStep(s, e).log == s.log + [Relocked(w.acceptedAt, w.id)];
      case _ =>
    }
  }

  lemma CountKept(t: Popups.Tools, s: State, a: Action)
    requires Inv(t, s) && CountInv(s) && Enabled(s, a)
    ensures CountInv(Apply(t, s, a))
  {
    hide Popups.Step, RowOrder, Tag, UiEnabled, WorkerStep, WorkerEnabled, ThreadEnabled, ThreadStep, Sessions.Lock, CountInv,
      LogInv, TicketInv, WorkerInv, FlagInv, MutexInv, ThreadInv, PinInv, AnswersInv, QueueInv, ConfirmInv, Popups.Consistent;
    var s' := Apply(t, s, a);
    if a.WorkerRuns? {
      CountedByWorker(s, a.env);
    } else if a.UiActs? {
      assert s'.log == s.log || s'.log == s.log + [s'.log[|s.log|]];
    } else if a.TakeRequest? {
      TakeCounted(s);
    } else if ThreadEnabled(s, a) {
      CountedByThread(s, a);
    }
    CountedKeeps(s, s');
  }

  lemma TakeCounted(s: State)
    requires s.worker.Idle? && s.requests != []
    ensures Counted(s, TakeHead(s))
  {
    assert s.requests[0].request.PinResponse? ==> TakeHead(s).log == s.log + [PinEnqueued(s.requests[0].sent)];
  }

  lemma {:induction false} CountRuns(t: Popups.Tools, s: State, actions: seq<Action>)
    requires Inv(t, s) && CountInv(s) && ValidRun(t, s, actions)
    ensures CountInv(Run(t, s, actions))
    decreases |actions|
  {
    hide Inv, Apply, Enabled, CountInv;
    if actions != [] {
      StepKeeps(t, s, actions[0]);
      CountKept(t, s, actions[0]);
      CountRuns(t, Apply(t, s, actions[0]), actions[1..]);
    }
  }

  lemma Reached(t: Popups.Tools, session: Sessions.State, actions: seq<Action>)
    requires ValidRun(t, Start(session), actions)
    ensures Inv(t, Run(t, Start(session), actions)) && CountInv(Run(t, Start(session), actions))
  {
    hide Inv, ValidRun, Run;
    StartHolds(t, session);
    RunKeeps(t, Start(session), actions);
    CountRuns(t, Start(session), actions);
  }

  lemma ReachedLog(t: Popups.Tools, session: Sessions.State, actions: seq<Action>)
    requires ValidRun(t, Start(session), actions)
    ensures LogInv(Run(t, Start(session), actions).log)
  {
    hide *;
    Reached(t, session, actions);
    InvGivesLog(t, Run(t, Start(session), actions));
  }

  lemma InvGivesLog(t: Popups.Tools, s: State)
    requires Inv(t, s)
    ensures LogInv(s.log)
  {
    hide LogInv, TicketInv, WorkerInv, FlagInv, MutexInv, ThreadInv, PinInv, AnswersInv, QueueInv, ConfirmInv, Popups.Consistent;
  }

  // ---- The history is true --------------------------------------------------------------------------------------

  /** What the log says of a step from `s` to `s'` is what happened to the popup, the session and the
      database in that step. */
  ghost predicate TrueNote(s: State, s': State, n: Note) {
    match n
    case ConfirmOpened(id, name, listed) =>
      s.ui.mode.ListMode? && s'.ui.mode == Popups.ConfirmDelete(id, name) && listed == s'.ui.ranked
    case ConfirmAccepted(openedAt, id) =>
      s.ui.mode.ConfirmDelete? && s.ui.mode.id == id && s.confirmation == Some(openedAt) && s'.ui.mode.ListMode?
    case Relocked(_, _) =>
      s'.session.inner == None && s'.session.deadline == None && s'.session.tables == s.session.tables
    case AssertionBegan(thread) => s.holder == None && s'.holder == Some(thread)
    case AssertionEnded(thread, unlocked) =>
      && s.holder == Some(thread) && s'.holder == None
      && (if unlocked then s'.session.inner.Some? && s'.session.deadline.Some? && s'.session.tables == s.session.tables
          else s'.session == s.session)
    case Deleted(w) =>
      && w.id in s.session.tables.rows && s'.session == s.session.(tables := s.session.tables.(rows := s.session.tables.rows - {w.id}))
    case PinSent =>
      && s.ui.mode.PinMode? && s'.ui.mode.ListMode?
      && |s'.requests| == |s.requests| + 1 && s'.requests[..|s.requests|] == s.requests
      && s'.requests[|s.requests|].request.PinResponse? && s'.requests[|s.requests|].sent == |s.log|
    case PinDrained(_, waiting) => s.answers == [] && s'.answers == [] && s'.requests == s.requests && waiting == PinsWaiting(s.requests)
    case PinEnqueued(sent) =>
      && s.requests != [] && s.requests[0].request.PinResponse? && s.requests[0].sent == sent
      && s'.requests == s.requests[1..] && s'.answers == s.answers + [Answer(s.requests[0].request.pin, sent, |s.log|)]
    case PinReceived(_, _, sent, enqueued) =>
      s.answers != [] && s.answers[0].sent == sent && s.answers[0].at == enqueued && s'.answers == s.answers[1..]
    case UnlockClaimed => !s.inFlight && s'.inFlight
    case UnlockReleased(_) => s.inFlight && !s'.inFlight
  }

  ghost predicate TrueStep(s: State, s': State) {
    s'.log == s.log || (|s.log| < |s'.log| && TrueNote(s, s', s'.log[|s.log|]))
  }

  lemma HistoryIsTrue(t: Popups.Tools, s: State, a: Action)
    requires Inv(t, s) && Enabled(s, a)
    ensures TrueStep(s, Apply(t, s, a))
  {
    hide TrueStep, Popups.Step, RowOrder, Tag, UiEnabled, UiNote, UiStep, WorkerStep, WorkerEnabled, ThreadEnabled, ThreadStep, Sessions.Lock,
      TakeHead, TrueNote, LogInv, TicketInv, WorkerInv, FlagInv, MutexInv, ThreadInv, PinInv, AnswersInv, QueueInv, ConfirmInv,
      Popups.Consistent;
    if a.WorkerRuns? {
      WorkerTellsTrue(s, a.env);
    } else if a.UiActs? {
      UiTellsTrue(t, s, a.step);
    } else if a.TakeRequest? {
      TakeTellsTrue(s);
    } else if a.HotkeyPressed? || a.TickerFires? || a.ShutdownAsked? {
      StartsWithoutTicket(t, s, a);
      NothingToTell(s, Apply(t, s, a));
    } else {
      ThreadTellsTrue(s, a);
    }
  }

  lemma NothingToTell(s: State, s': State)
    requires s'.log == s.log
    ensures TrueStep(s, s')
  {
  }

  lemma TakeTellsTrue(s: State)
    requires s.worker.Idle? && s.requests != []
    ensures TrueStep(s, TakeHead(s))
  {
  }

  lemma UiTellsTrue(t: Popups.Tools, s: State, step: Popups.UiStep)
    requires UiEnabled(s, step) && ConfirmInv(s.ui, s.confirmation, s.log)
    ensures TrueStep(s, UiStep(t, s, step))
  {
    hide Popups.Step, Tag;
    Popups.SentIsJustified(t, s.ui, step);
    Popups.ConfirmationsAreOpenedFromTheList(t, s.ui, step);
    var r := Popups.Step(t, s.ui, step);
    if |r.sent| == 1 {
      assert Popups.MaySend(s.ui, r.state, r.sent[0]);
      TagOfOne(s, r.sent);
    }
  }

  lemma TagOfOne(s: State, sent: seq<UiRequest>)
    requires |sent| == 1
    ensures |Tag(s, sent)| == 1 && Tag(s, sent)[0].request == sent[0] && Tag(s, sent)[0].sent == |s.log|
  {
  }

  lemma WorkerTellsTrue(s: State, e: Env)
    requires WorkerEnabled(s) && RowOrder(s.session.tables, e.order)
    ensures TrueStep(s, WorkerStep(s, e))
  {
    hide Sessions.Tick, Sessions.ListSecrets, Sessions.OpenSecret, Sessions.MetaFor, Sessions.Add, Sessions.Update, Resolve, RowOrder;
    match s.worker {
      case ReadingFlag(check) => ResolveFrame(s, check, WaitingForTouch);
      case ReadingSession(check) =>
        var r := Sessions.Tick(s.session, e.clock.check);
        ResolveFrame(s.(session := r.0), check, ForUi(r.1));
      case _ =>
    }
  }

  lemma ThreadTellsTrue(s: State, a: Action)
    requires ThreadEnabled(s, a) && MutexInv(s.threads, s.holder) && FlagInv(s.threads, s.worker, s.inFlight)
    ensures TrueStep(s, ThreadStep(s, a))
  {
    hide Sessions.Unlock, Sessions.Tick, Sessions.ListSecrets, TailStep, RowOrder;
    if a.Finish? {
      UnlockKeepsTables(s.session, a.who, a.now);
      UnlockSetsBoth(s.session, a.who, a.now);
    }
    if a.Release? {
      assert Outstanding(s.threads[a.thread]);
    }
    if a.TailRuns? {
      TailFrame(s, a.thread, a.env);
    }
  }

  lemma UnlockSetsBoth(s: Sessions.State, who: Authenticator, now: int)
    ensures Sessions.Unlock(s, who, now).1.Ok? ==>
              Sessions.Unlock(s, who, now).0.inner.Some? && Sessions.Unlock(s, who, now).0.deadline.Some?
    ensures Sessions.Unlock(s, who, now).1.Err? ==> Sessions.Unlock(s, who, now).0 == s
  {
  }

  // ---- The theorems ---------------------------------------------------------------------------------------------

  /** In every interleaving, a secret is deleted only after a confirmation was opened for that same id
      from a row that was listed under the name shown, was accepted, the worker then locked the session
      for that request, and an assertion that began after that unlocked it. */
  lemma NoDeletionWithoutConfirmation(t: Popups.Tools, session: Sessions.State, actions: seq<Action>, k: nat)
    requires ValidRun(t, Start(session), actions)
    requires k < |Run(t, Start(session), actions).log| && Run(t, Start(session), actions).log[k].Deleted?
    ensures var log := Run(t, Start(session), actions).log;
            var w := log[k].warrant;
            && w.openedAt < w.acceptedAt < w.relockedAt < w.beganAt < w.endedAt < k
            && log[w.openedAt].ConfirmOpened? && log[w.openedAt].id == w.id
            && (exists i | 0 <= i < |log[w.openedAt].listed| ::
                  log[w.openedAt].listed[i].meta.id == w.id && log[w.openedAt].listed[i].meta.name == log[w.openedAt].name)
            && log[w.acceptedAt] == ConfirmAccepted(w.openedAt, w.id)
            && log[w.relockedAt] == Relocked(w.acceptedAt, w.id)
            && log[w.beganAt].AssertionBegan?
            && log[w.endedAt] == AssertionEnded(log[w.beganAt].thread, true)
  {
    hide Start, ValidRun, Run;
    ReachedLog(t, session, actions);
    var log := Run(t, Start(session), actions).log;
    assert NoteInv(log, k);
    assert NoteInv(log, log[k].warrant.openedAt);
  }

  lemma {:induction false} DeletionsInOrder(log: Log, i: nat, j: nat)
    requires Increasing(DeletedTickets(log)) && i < j < |log| && log[i].Deleted? && log[j].Deleted?
    ensures log[i].warrant.openedAt < log[j].warrant.openedAt
    decreases |log|
  {
    var n := |log| - 1;
    var before := DeletedTickets(log[..n]);
    assert Increasing(before) by {
      assert forall k | 0 <= k < |before| :: DeletedTickets(log)[k] == before[k];
    }
    if j < n {
      DeletionsInOrder(log[..n], i, j);
    } else {
      DeletionIsCounted(log[..n], i);
      var k :| 0 <= k < |before| && before[k] == log[i].warrant.openedAt;
      assert DeletedTickets(log)[k] == before[k];
      assert DeletedTickets(log)[|before|] == log[j].warrant.openedAt;
    }
  }

  lemma {:induction false} DeletionIsCounted(log: Log, i: nat)
    requires i < |log| && log[i].Deleted?
    ensures log[i].warrant.openedAt in DeletedTickets(log)
    decreases |log|
  {
    var n := |log| - 1;
    if i < n {
      DeletionIsCounted(log[..n], i);
    }
  }

  /** One confirmation yields at most one deletion, and deletions follow the order of their
      confirmations. */
  lemma OneConfirmationOneDeletion(t: Popups.Tools, session: Sessions.State, actions: seq<Action>, i: nat, j: nat)
    requires ValidRun(t, Start(session), actions)
    requires i < j < |Run(t, Start(session), actions).log|
    requires Run(t, Start(session), actions).log[i].Deleted? && Run(t, Start(session), actions).log[j].Deleted?
    ensures var log := Run(t, Start(session), actions).log; log[i].warrant.openedAt < log[j].warrant.openedAt
  {
    hide Start, ValidRun, Run, DeletedTickets, QueuedTickets, WorkerTicket, ScreenTicket;
    Reached(t, session, actions);
    var s := Run(t, Start(session), actions);
    var d := DeletedTickets(s.log);
    assert forall k | 0 <= k < |d| :: Tickets(s)[k] == d[k];
    DeletionsInOrder(s.log, i, j);
  }

  lemma UnlockKeepsTables(s: Sessions.State, who: Authenticator, now: int)
    ensures Sessions.Unlock(s, who, now).0.tables == s.tables
  {
  }

  lemma ListKeepsTables(s: Sessions.State, order: seq<Bytes>, lower: string -> string, now: int)
    requires RowOrder(s.tables, order)
    ensures Sessions.ListSecrets(s, order, lower, now).0.tables == s.tables
  {
    hide Sessions.OpenRows, Sessions.RowsOf;
  }

  lemma ReadsKeepTables(s: Sessions.State, id: Uuid, now: int, clock: Sessions.Clock)
    ensures Sessions.MetaFor(s, id, now).0.tables == s.tables
    ensures Sessions.OpenSecret(s, id, clock).0.tables == s.tables
  {
  }

  lemma WritesKeepRows(s: Sessions.State, meta: SecretMeta, payload: SecretPayload, rand: Sessions.SealRandom, clock: Sessions.Clock, id: Bytes)
    requires id in s.tables.rows
    ensures id in Sessions.Add(s, meta, payload, rand, clock).0.tables.rows
    ensures id in Sessions.Update(s, meta, payload, rand, clock).0.tables.rows
  {
    hide Sessions.SealedRow;
  }

  /** A stored secret leaves the database only in the step that logs its deletion. */
  lemma RowLeavesOnlyByDeletion(t: Popups.Tools, s: State, a: Action, id: Bytes)
    requires Enabled(s, a)
    ensures id in s.session.tables.rows && id !in Apply(t, s, a).session.tables.rows ==>
              exists w: Warrant :: Apply(t, s, a).log == s.log + [Deleted(w)] && w.id == id
  {
    if id in s.session.tables.rows && id !in Apply(t, s, a).session.tables.rows {
      RowLeaves(t, s, a, id);
    }
  }

  lemma RowLeaves(t: Popups.Tools, s: State, a: Action, id: Bytes)
    requires Enabled(s, a) && id in s.session.tables.rows && id !in Apply(t, s, a).session.tables.rows
    ensures exists w: Warrant :: Apply(t, s, a).log == s.log + [Deleted(w)] && w.id == id
  {
    hide Popups.Step, RowOrder, Tag, UiEnabled, ThreadStep, ThreadEnabled, WorkerStep, WorkerEnabled, TakeHead;
    if a.WorkerRuns? {
      RowLeavesByWorker(s, a.env, id);
    } else if a.TakeRequest? {
      TakeKeepsSession(s);
    } else if !a.UiActs? && ThreadEnabled(s, a) {
      ThreadsKeepRows(s, a, id);
    }
  }

  lemma TakeKeepsSession(s: State)
    requires s.requests != []
    ensures TakeHead(s).session == s.session
  {
  }

  lemma ThreadsKeepRows(s: State, a: Action, id: Bytes)
    requires ThreadEnabled(s, a) && id in s.session.tables.rows
    ensures id in ThreadStep(s, a).session.tables.rows
  {
    hide Sessions.Unlock, Sessions.ListSecrets, RowOrder;
    if a.Finish? {
      UnlockKeepsTables(s.session, a.who, a.now);
    }
    if a.TailRuns? {
      ListKeepsTables(s.session, a.env.order, a.env.lower, a.env.clock.check);
    }
  }

  lemma RowLeavesByWorker(s: State, e: Env, id: Bytes)
    requires WorkerEnabled(s) && RowOrder(s.session.tables, e.order)
    requires id in s.session.tables.rows && id !in WorkerStep(s, e).session.tables.rows
    ensures exists w: Warrant :: WorkerStep(s, e).log == s.log + [Deleted(w)] && w.id == id
  {
    hide Perform, Resolve, RowOrder;
    match s.worker {
      case ReadingFlag(check) => ResolveFrame(s, check, WaitingForTouch);
      case ReadingSession(check) =>
        var r := Sessions.Tick(s.session, e.clock.check);
        ResolveFrame(s.(session := r.0), check, ForUi(r.1));
      case Acting(act) => RowLeavesByAct(s, act, e, id);
      case _ =>
    }
  }

  lemma RowLeavesByAct(s: State, act: Act, e: Env, id: Bytes)
    requires RowOrder(s.session.tables, e.order)
    requires id in s.session.tables.rows && id !in Perform(s, act, e).session.tables.rows
    ensures act.DeleteAct? && act.warrant.id == id && Perform(s, act, e).log == s.log + [Deleted(act.warrant)]
  {
    hide Sessions.ListSecrets, Sessions.OpenSecret, Sessions.MetaFor, Sessions.Add, Sessions.Update, RowOrder;
    match act {
      case ListAct(_, _) => ListKeepsTables(s.session, e.order, e.lower, e.clock.check);
      case RefreshAct => ListKeepsTables(s.session, e.order, e.lower, e.clock.check);
      case UseAct(uid) => ReadsKeepTables(s.session, uid, e.clock.check, e.clock);
      case EditAct(uid) =>
        ReadsKeepTables(s.session, uid, e.clock.check, e.clock);
        ReadsKeepTables(Sessions.MetaFor(s.session, uid, e.clock.check).0, uid, e.clock.check, e.clock);
      case SaveAct(meta, payload, _) => WritesKeepRows(s.session, meta, payload, e.rand, e.clock, id);
      case _ =>
    }
  }

  /** Over whole runs: a secret that was stored at the start and is gone at the end was deleted, with
      its warrant, somewhere in between. */
  lemma {:induction false} GoneMeansDeleted(t: Popups.Tools, s: State, actions: seq<Action>, id: Bytes)
    requires ValidRun(t, s, actions)
    ensures id in s.session.tables.rows && id !in Run(t, s, actions).session.tables.rows ==>
              && s.log <= Run(t, s, actions).log
              && exists k | |s.log| <= k < |Run(t, s, actions).log| ::
                   Run(t, s, actions).log[k].Deleted? && Run(t, s, actions).log[k].warrant.id == id
    decreases |actions|
  {
    hide Apply, Enabled;
    if id !in s.session.tables.rows || id in Run(t, s, actions).session.tables.rows {
      return;
    }
    var s1 := Apply(t, s, actions[0]);
    LogGrows(t, s, actions[0]);
    RunGrows(t, s1, actions[1..]);
    if id in s1.session.tables.rows {
      GoneMeansDeleted(t, s1, actions[1..], id);
    } else {
      RowLeavesOnlyByDeletion(t, s, actions[0], id);
      var w: Warrant :| s1.log == s.log + [Deleted(w)] && w.id == id;
      assert Run(t, s, actions).log[|s.log|] == s1.log[|s.log|] == Deleted(w);
    }
  }

  lemma {:induction false} RunGrows(t: Popups.Tools, s: State, actions: seq<Action>)
    requires ValidRun(t, s, actions)
    ensures s.log <= Run(t, s, actions).log
    decreases |actions|
  {
    hide Apply, Enabled;
    if actions != [] {
      LogGrows(t, s, actions[0]);
      RunGrows(t, Apply(t, s, actions[0]), actions[1..]);
    }
  }

  /** In every reachable state the flag is set exactly while a claim has been made and not released, and
      at most one claimed unlock is outstanding; over the whole history no second claim was ever made
      before the first was released. */
  lemma FlagMeansOneOutstanding(t: Popups.Tools, session: Sessions.State, actions: seq<Action>)
    requires ValidRun(t, Start(session), actions)
    ensures var s := Run(t, Start(session), actions);
            && (s.inFlight <==> s.worker.Spawning? || exists i | 0 <= i < |s.threads| :: Outstanding(s.threads[i]))
            && (forall i, j | 0 <= i < |s.threads| && 0 <= j < |s.threads| && Outstanding(s.threads[i]) && Outstanding(s.threads[j]) :: i == j)
            && Claims(s.log) == (if s.inFlight then 1 else 0)
            && forall k | 0 <= k <= |s.log| :: 0 <= Claims(s.log[..k]) <= 1
  {
    hide Start, ValidRun, Run, Claims, Running, Outstanding, LogInv, TicketInv, WorkerInv, ThreadInv, QueueInv, ConfirmInv, PinInv;
    Reached(t, session, actions);
  }

  /** At most one assertion, spawned or awaited, runs at a time: the one that holds the session. */
  lemma OneAssertionAtATime(t: Popups.Tools, session: Sessions.State, actions: seq<Action>)
    requires ValidRun(t, Start(session), actions)
    ensures var s := Run(t, Start(session), actions);
            && (forall i | 0 <= i < |s.threads| :: s.threads[i].at.Asserting? <==> s.holder == Some(i))
            && Running(s.log) == (if s.holder.Some? then 1 else 0)
            && forall k | 0 <= k <= |s.log| :: 0 <= Running(s.log[..k]) <= 1
  {
    hide Start, ValidRun, Run, Claims, Running, Outstanding, LogInv, TicketInv, WorkerInv, ThreadInv, QueueInv, ConfirmInv, PinInv;
    Reached(t, session, actions);
  }

  /** Any answer that an assertion receives entered the channel after that assertion's own drain; when the
      popup sent it is the subject of `PinOrigins`. */
  lemma PinsAreFresh(t: Popups.Tools, session: Sessions.State, actions: seq<Action>, k: nat)
    requires ValidRun(t, Start(session), actions)
    requires k < |Run(t, Start(session), actions).log| && Run(t, Start(session), actions).log[k].PinReceived?
    ensures var log := Run(t, Start(session), actions).log;
            && log[k].drained < log[k].enqueued < k
            && log[log[k].drained].PinDrained? && log[log[k].drained].thread == log[k].thread
            && log[log[k].enqueued] == PinEnqueued(log[k].sent)
  {
    hide Start, ValidRun, Run;
    ReachedLog(t, session, actions);
    assert NoteInv(Run(t, Start(session), actions).log, k);
  }

  /** In every reachable state the popup shows the ranking of what it holds, with its selection inside. */
  lemma PopupAlwaysAgrees(t: Popups.Tools, session: Sessions.State, actions: seq<Action>)
    requires ValidRun(t, Start(session), actions)
    ensures var ui := Run(t, Start(session), actions).ui;
            && ui.ranked == Fuzzy.Rank(t.searcher, ui.secrets, ui.query, ui.context)
            && (ui.ranked != [] ==> ui.selected < |ui.ranked|)
  {
    hide Start, ValidRun, Run, Fuzzy.Rank, LogInv, TicketInv, WorkerInv, ThreadInv, QueueInv, ConfirmInv, PinInv, FlagInv;
    Reached(t, session, actions);
  }
}