/** Where a received PIN comes from (`pin.rs`, `daemon.rs`).

    Draining the channel does not reach the answers that the worker has not taken yet. So a prompt may be
    answered with a PIN that was typed for an earlier one, and this module says exactly when. */
module PinOrigins {
  import opened Common
  import opened Db
  import opened Messages
  import opened SharedState
  import opened Protocol
  import opened ProtocolSafety
  import Popups
  import Sessions

  /** The places where the popup sent the answers that no assertion has read or drained yet. */
  function Unread(requests: seq<Tagged>, answers: seq<Answer>): set<nat> {
    PinsWaiting(requests) + set k | 0 <= k < |answers| :: answers[k].sent
  }

  ghost predicate SentInv(unread: set<nat>, log: Log) {
    forall p | p in unread :: p < |log| && log[p] == PinSent
  }

  ghost predicate MarkOk(mark: Option<nat>, unread: set<nat>, log: Log) {
    mark.Some? ==>
      && mark.value < |log| && log[mark.value].PinDrained?
      && forall p | p in unread && p < mark.value :: p in log[mark.value].waiting
  }

  /** What was sent before a drain and is still unread stood among the requests at that drain. */
  ghost predicate MarksInv(threads: seq<Thread>, unread: set<nat>, log: Log) {
    forall i | 0 <= i < |threads| :: MarkOk(DrainMark(threads[i]), unread, log)
  }

  ghost predicate OriginNote(log: Log, k: nat)
    requires k < |log|
  {
    match log[k]
    case PinDrained(_, waiting) => forall p | p in waiting :: p < k && log[p] == PinSent
    case PinEnqueued(sent) => sent < k && log[sent] == PinSent
    case PinReceived(_, drained, sent, _) =>
      && drained < k && sent < k && log[drained].PinDrained? && log[sent] == PinSent
      && (drained < sent <==> sent !in log[drained].waiting)
    case _ => true
  }

  ghost predicate OriginsInv(log: Log) {
    forall k | 0 <= k < |log| :: OriginNote(log, k)
  }

  ghost predicate OriginInv(s: State) {
    && SentInv(Unread(s.requests, s.answers), s.log)
    && MarksInv(s.threads, Unread(s.requests, s.answers), s.log)
    && OriginsInv(s.log)
  }

  predicate OfPin(n: Note) {
    n.PinSent? || n.PinDrained? || n.PinEnqueued? || n.PinReceived?
  }

  // ---- Each step -----------------------------------------------------------------------------------

  lemma OriginsGrow(log: Log, log': Log)
    requires OriginsInv(log) && log <= log' && |log'| <= |log| + 1
    requires |log| < |log'| ==> OriginNote(log', |log|)
    ensures OriginsInv(log')
  {
    forall k | 0 <= k < |log'| ensures OriginNote(log', k) {
      if k < |log| {
        assert OriginNote(log, k);
      }
    }
  }

  /** Nothing becomes unread but what the popup has just sent. */
  lemma UnreadShrinks(s: State, unread': set<nat>, log': Log)
    requires OriginInv(s) && s.log <= log'
    requires unread' <= Unread(s.requests, s.answers) + if |s.log| < |log'| && log'[|s.log|] == PinSent then {|s.log|} else {}
    ensures SentInv(unread', log') && MarksInv(s.threads, unread', log')
  {
    forall i | 0 <= i < |s.threads| ensures MarkOk(DrainMark(s.threads[i]), unread', log') {
      assert MarkOk(DrainMark(s.threads[i]), Unread(s.requests, s.answers), s.log);
    }
  }

  lemma UnreadAfterUi(t: Popups.Tools, s: State, step: Popups.UiStep)
    requires UiEnabled(s, step)
    ensures var s' := UiStep(t, s, step);
            && Unread(s'.requests, s'.answers)
               <= Unread(s.requests, s.answers) + (if |s.log| < |s'.log| && s'.log[|s.log|] == PinSent then {|s.log|} else {})
            && (s'.log == s.log || (|s'.log| == |s.log| + 1 && (s'.log[|s.log|] == PinSent || !OfPin(s'.log[|s.log|]))))
  {
    hide Popups.Step;
    Popups.AtMostOneDelete(t, s.ui, step);
    Popups.SentIsJustified(t, s.ui, step);
    var s' := UiStep(t, s, step);
    forall p | p in PinsWaiting(s'.requests)
      ensures p in PinsWaiting(s.requests) || (p == |s.log| && s'.log == s.log + [PinSent])
    {
      WaitingAfterUi(t, s, step, p);
    }
  }

  lemma WaitingAfterUi(t: Popups.Tools, s: State, step: Popups.UiStep, p: nat)
    requires UiEnabled(s, step) && p in PinsWaiting(UiStep(t, s, step).requests)
    ensures p in PinsWaiting(s.requests) || (p == |s.log| && UiStep(t, s, step).log == s.log + [PinSent])
  {
    hide Popups.Step;
    Popups.AtMostOneDelete(t, s.ui, step);
    Popups.SentIsJustified(t, s.ui, step);
    var s', sent := UiStep(t, s, step), Popups.Step(t, s.ui, step).sent;
    var k :| 0 <= k < |s'.requests| && s'.requests[k].request.PinResponse? && s'.requests[k].sent == p;
    if k < |s.requests| {
      assert s'.requests[k] == s.requests[k];
    } else {
      var m := sent[k - |s.requests|];
      assert s'.requests[k] == Tag(s, sent)[k - |s.requests|];
      assert m in sent && Popups.Asks(m) && sent == [m];
      assert Popups.MaySend(s.ui, s'.ui, m);
    }
  }

  lemma UiKeepsOrigins(t: Popups.Tools, s: State, step: Popups.UiStep)
    requires OriginInv(s) && UiEnabled(s, step)
    ensures OriginInv(UiStep(t, s, step))
  {
    UnreadAfterUi(t, s, step);
    var s' := UiStep(t, s, step);
    assert s'.threads == s.threads && s.log <= s'.log;
    hide UiStep, Unread, MarksInv, SentInv, OriginsInv;
    UnreadShrinks(s, Unread(s'.requests, s'.answers), s'.log);
    OriginsGrow(s.log, s'.log);
  }

  lemma TakeKeepsOrigins(s: State)
    requires OriginInv(s) && s.worker.Idle? && s.requests != []
    ensures OriginInv(TakeHead(s))
  {
    var s' := TakeHead(s);
    UnreadAfterTake(s);
    assert s'.threads == s.threads && s.log <= s'.log;
    if |s.log| < |s'.log| {
      assert s'.log == s.log + [PinEnqueued(s.requests[0].sent)];
      assert s.requests[0].sent in Unread(s.requests, s.answers);
    }
    hide TakeHead, Unread, MarksInv, OriginsInv;
    UnreadShrinks(s, Unread(s'.requests, s'.answers), s'.log);
    OriginsGrow(s.log, s'.log);
  }

  lemma UnreadAfterTake(s: State)
    requires s.requests != []
    ensures Unread(TakeHead(s).requests, TakeHead(s).answers) <= Unread(s.requests, s.answers)
  {
    var s' := TakeHead(s);
    assert s'.requests == s.requests[1..];
    var head := s.requests[0];
    if s'.answers != s.answers {
      assert head.request.PinResponse? && s'.answers == s.answers + [Answer(head.request.pin, head.sent, |s.log|)];
    }
    hide TakeHead;
    assert PinsWaiting(s.requests[1..]) <= PinsWaiting(s.requests) by {
      assert forall k | 0 <= k < |s.requests| - 1 :: s.requests[1..][k] == s.requests[k + 1];
    }
    forall p | p in Unread(s'.requests, s'.answers) ensures p in Unread(s.requests, s.answers) {
      if p !in PinsWaiting(s'.requests) {
        var k :| 0 <= k < |s'.answers| && s'.answers[k].sent == p;
        assert k < |s.answers| ==> s'.answers[k] == s.answers[k];
      }
    }
  }

  lemma WorkerKeepsOrigins(s: State, e: Env)
    requires OriginInv(s) && WorkerEnabled(s) && RowOrder(s.session.tables, e.order)
    ensures OriginInv(WorkerStep(s, e))
  {
    var s' := WorkerStep(s, e);
    WorkerLog(s, e);
    WorkerTouchesNoPin(s, e);
    hide WorkerStep, WorkerEnabled, Unread, MarkOk, SentInv, OriginsInv, RowOrder, DrainMark;
    UnreadShrinks(s, Unread(s'.requests, s'.answers), s'.log);
    OriginsGrow(s.log, s'.log);
    forall i | 0 <= i < |s'.threads| ensures MarkOk(DrainMark(s'.threads[i]), Unread(s'.requests, s'.answers), s'.log) {
      if DrainMark(s'.threads[i]) == None {
        NoMark(Unread(s'.requests, s'.answers), s'.log);
      } else {
        assert MarkOk(DrainMark(s.threads[i]), Unread(s'.requests, s'.answers), s'.log);
      }
    }
  }

  lemma NoMark(unread: set<nat>, log: Log)
    ensures MarkOk(None, unread, log)
  {
  }

  lemma WorkerTouchesNoPin(s: State, e: Env)
    requires WorkerEnabled(s) && RowOrder(s.session.tables, e.order)
    ensures var s' := WorkerStep(s, e);
            && s'.answers == s.answers && s'.requests == s.requests
            && (|s.log| < |s'.log| ==> !OfPin(s'.log[|s.log|]))
            && (forall j | 0 <= j < |s'.threads| ::
                  DrainMark(s'.threads[j]) == None || (j < |s.threads| && s'.threads[j] == s.threads[j]))
  {
    hide Sessions.Tick, Sessions.Lock, Perform, Resolve, RowOrder;
    match s.worker {
      case ReadingFlag(check) => ResolveFrame(s, check, WaitingForTouch);
      case ReadingSession(check) =>
        var r := Sessions.Tick(s.session, e.clock.check);
        ResolveFrame(s.(session := r.0), check, ForUi(r.1));
      case Acting(act) => PerformFrame(s, act, e);
      case _ =>
    }
  }

  lemma UnreadAfterThread(s: State, a: Action)
    requires ThreadEnabled(s, a)
    ensures var s' := ThreadStep(s, a); Unread(s'.requests, s'.answers) <= Unread(s.requests, s.answers)
  {
    ThreadFrame(s, a);
    AnswersLeave(s, a);
    hide *;
    var s' := ThreadStep(s, a);
    UnreadOfSuffix(s.requests, s.answers, s'.answers);
  }

  lemma UnreadOfSuffix(requests: seq<Tagged>, answers: seq<Answer>, answers': seq<Answer>)
    requires |answers'| <= |answers| && answers' == answers[|answers| - |answers'|..]
    ensures Unread(requests, answers') <= Unread(requests, answers)
  {
    hide PinsWaiting;
    forall k | 0 <= k < |answers'| ensures answers'[k].sent in Unread(requests, answers) {
      assert answers'[k] == answers[k + |answers| - |answers'|];
    }
  }

  /** What the moving thread notes, and its own mark. */
  lemma OneThreadMarks(s: State, a: Action)
    requires OriginInv(s) && ThreadEnabled(s, a)
    ensures var s' := ThreadStep(s, a);
            && a.thread < |s'.threads|
            && MarkOk(DrainMark(s'.threads[a.thread]), Unread(s.requests, s'.answers), s'.log)
            && (|s.log| < |s'.log| ==> OriginNote(s'.log, |s.log|) && s'.log[|s.log|] != PinSent)
  {
    hide Sessions.Unlock, TailStep, RowOrder, PinsWaiting, OriginsInv, MarksInv;
    var unread := Unread(s.requests, s.answers);
    UnreadAfterThread(s, a);
    ThreadFrame(s, a);
    assert MarkOk(DrainMark(s.threads[a.thread]), unread, s.log) by {
      OneMark(s, a.thread);
    }
    if a.TailRuns? {
      TailFrame(s, a.thread, a.env);
    }
    if a.DrainDone? {
      assert Unread(s.requests, s.answers) == PinsWaiting(s.requests);
    }
    if a.ReceivePin? {
      var m := s.threads[a.thread].at.pin.mark;
      assert s.answers[0].sent in unread;
      assert OriginNote(s.log, m) by {
        OneOrigin(s.log, m);
      }
    }
  }

  lemma OneMark(s: State, i: nat)
    requires MarksInv(s.threads, Unread(s.requests, s.answers), s.log) && i < |s.threads|
    ensures MarkOk(DrainMark(s.threads[i]), Unread(s.requests, s.answers), s.log)
  {
  }

  lemma OneOrigin(log: Log, k: nat)
    requires OriginsInv(log) && k < |log|
    ensures OriginNote(log, k)
  {
  }

  lemma ThreadKeepsOrigins(s: State, a: Action)
    requires OriginInv(s) && ThreadEnabled(s, a)
    ensures OriginInv(ThreadStep(s, a))
  {
    var s' := ThreadStep(s, a);
    ThreadFrame(s, a);
    OneThreadMarks(s, a);
    UnreadAfterThread(s, a);
    hide ThreadStep, ThreadEnabled, Unread, MarkOk, SentInv, OriginsInv, DrainMark, Outstanding, OriginNote;
    UnreadShrinks(s, Unread(s'.requests, s'.answers), s'.log);
    OriginsGrow(s.log, s'.log);
    forall i | 0 <= i < |s'.threads| ensures MarkOk(DrainMark(s'.threads[i]), Unread(s'.requests, s'.answers), s'.log) {
      if i != a.thread {
        assert s'.threads[i] == s.threads[i];
        assert MarkOk(DrainMark(s.threads[i]), Unread(s'.requests, s'.answers), s'.log);
      }
    }
  }

  lemma StepKeepsOrigins(t: Popups.Tools, s: State, a: Action)
    requires OriginInv(s) && Enabled(s, a)
    ensures OriginInv(Apply(t, s, a))
  {
    hide Popups.Step, RowOrder, UiStep, UiEnabled, WorkerStep, WorkerEnabled, ThreadEnabled, ThreadStep, TakeHead, OriginInv;
    if a.WorkerRuns? {
      WorkerKeepsOrigins(s, a.env);
    } else if a.UiActs? {
      UiKeepsOrigins(t, s, a.step);
    } else if a.TakeRequest? {
      TakeKeepsOrigins(s);
    } else if a.HotkeyPressed? || a.TickerFires? || a.ShutdownAsked? {
      SameOrigins(s, Apply(t, s, a).worker);
    } else {
      ThreadKeepsOrigins(s, a);
    }
  }

  lemma SameOrigins(s: State, worker: WorkerAt)
    requires OriginInv(s)
    ensures OriginInv(s.(worker := worker))
  {
  }

  // ---- Every run -----------------------------------------------------------------------------------

  lemma {:induction false} RunKeepsOrigins(t: Popups.Tools, s: State, actions: seq<Action>)
    requires OriginInv(s) && ValidRun(t, s, actions)
    ensures OriginInv(Run(t, s, actions))
    decreases |actions|
  {
    hide OriginInv, Apply, Enabled;
    if actions != [] {
      StepKeepsOrigins(t, s, actions[0]);
      RunKeepsOrigins(t, Apply(t, s, actions[0]), actions[1..]);
    }
  }

  lemma ReachedOrigins(t: Popups.Tools, session: Sessions.State, actions: seq<Action>)
    requires ValidRun(t, Start(session), actions)
    ensures OriginsInv(Run(t, Start(session), actions).log)
  {
    hide ValidRun, Run, OriginInv;
    StartsWithoutPins(session);
    RunKeepsOrigins(t, Start(session), actions);
    NotesOf(Run(t, Start(session), actions));
  }

  lemma StartsWithoutPins(session: Sessions.State)
    ensures OriginInv(Start(session))
  {
  }

  lemma NotesOf(s: State)
    requires OriginInv(s)
    ensures OriginsInv(s.log)
  {
  }

  /** In every interleaving, an answer that an assertion receives is one that the popup sent; it was sent
      after that assertion drained the channel if and only if it did not stand among the requests at that
      moment, still to be taken by the worker. */
  lemma OwnPinExactly(t: Popups.Tools, session: Sessions.State, actions: seq<Action>, k: nat)
    requires ValidRun(t, Start(session), actions)
    requires k < |Run(t, Start(session), actions).log| && Run(t, Start(session), actions).log[k].PinReceived?
    ensures var log := Run(t, Start(session), actions).log;
            && log[k].sent < log[k].enqueued < k && log[log[k].sent] == PinSent
            && log[k].drained < k && log[log[k].drained].PinDrained? && log[log[k].drained].thread == log[k].thread
            && (log[k].drained < log[k].sent <==> log[k].sent !in log[log[k].drained].waiting)
  {
    hide Start, ValidRun, Run;
    ReachedOrigins(t, session, actions);
    var log := Run(t, Start(session), actions).log;
    PinsAreFresh(t, session, actions, k);
    assert OriginNote(log, k) && OriginNote(log, log[k].enqueued);
  }
}
