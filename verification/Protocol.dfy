/** The daemon as interleaved steps of the popup, the worker and the blocking unlock threads
    (`daemon.rs`, `state.rs`, `pin.rs`, `ui/popup.rs`).

    Every access to the session is one step that needs the mutex, except that an assertion holds the
    mutex from its first step to its last. The log, the warrants and the marks are history: what happens
    never depends on them. */
module Protocol {
  import opened Common
  import opened Symbolic
  import opened Keys
  import opened Model
  import opened Db
  import opened Fuzzy
  import opened Messages
  import opened SharedState
  import Popups
  import Sessions

  // ---- History ------------------------------------------------------------------------

  datatype Note =
    | ConfirmOpened(id: Uuid, name: string, listed: seq<Ranked>)
    | ConfirmAccepted(openedAt: nat, id: Uuid)
    | Relocked(acceptedAt: nat, id: Uuid)
    | AssertionBegan(thread: nat)
    | AssertionEnded(thread: nat, unlocked: bool)
    | Deleted(warrant: Warrant)
    | PinSent
    | PinDrained(thread: nat, waiting: set<nat>)
    | PinEnqueued(sent: nat)
    | PinReceived(thread: nat, drained: nat, sent: nat, enqueued: nat)
    | UnlockClaimed
    | UnlockReleased(thread: nat)

  type Log = seq<Note>

  /** Why a deletion may happen: the places in the log of each thing that had to happen first. */
  datatype Warrant = Warrant(id: Uuid, openedAt: nat, acceptedAt: nat, relockedAt: nat, beganAt: nat, endedAt: nat)

  /** A request with the place in the log where it was sent, and the history of the deletion that it may
      ask for. */
  datatype Tagged = Tagged(request: UiRequest, sent: nat, warrant: Warrant)

  /** An answer to a prompt, with the places where the popup sent it and where the worker passed it on. */
  datatype Answer = Answer(pin: Option<string>, sent: nat, at: nat)

  // ---- Where everyone is -----------------------------------------------------------------

  /** What the worker wants a lock state for. */
  datatype Check =
    | HotkeyCheck(host: Option<string>, application: Option<string>)
    | HotkeyShown(unlocked: bool)
    | TickerCheck
    | EditCheck(id: Uuid)
    | SaveCheck(meta: SecretMeta, payload: SecretPayload, isUpdate: bool)

  /** What the worker does with the session in one step. */
  datatype Act =
    | TouchAct
    | UseAct(id: Uuid)
    | ListAct(host: Option<string>, application: Option<string>)
    | EditAct(id: Uuid)
    | SaveAct(meta: SecretMeta, payload: SecretPayload, isUpdate: bool)
    | DeleteAct(warrant: Warrant)
    | RefreshAct
    | ShutdownAct

  datatype WorkerAt =
    | Idle
    | ReadingFlag(check: Check)
    | ReadingSession(check: Check)
    | Claiming
    | Spawning
    | Relocking(warrant: Warrant)
    | SpawningAssertion(next: Act)
    | Awaiting(next: Act, thread: nat)
    | Acting(act: Act)
    | Delivering(value: Bytes)
    | Stopped

  datatype PinAt = NoPin | Draining | Drained(mark: nat) | Waiting(mark: nat)

  datatype ThreadAt =
    | Wanting
    | Asserting(began: nat, pin: PinAt)
    | Finished(unlocked: bool, began: nat, ended: nat)
    | TailFlag
    | TailSession
    | TailRefresh
    | TailFailed
    | Gone

  /** `claimed` threads were started by `start_unlock`; the others are awaited by the worker. */
  datatype Thread = Thread(claimed: bool, spawned: nat, at: ThreadAt)

  datatype State = State(
    ui: Popups.State, events: seq<DaemonEvent>, requests: seq<Tagged>,
    confirmation: Option<nat>,          // where the one on screen was opened
    worker: WorkerAt, lastState: UiLockState,
    threads: seq<Thread>, holder: Option<nat>, inFlight: bool,
    session: Sessions.State, answers: seq<Answer>,
    typed: seq<Bytes>,                  // what was typed into the focused window so far
    log: Log)

  /** What a step takes from outside: the clock, a query's row order, randomness, the provider, the
      outcome of typing a secret, and the text of messages. */
  datatype Env = Env(
    clock: Sessions.Clock, order: seq<Bytes>, lower: string -> string, rand: Sessions.SealRandom,
    delivered: bool, message: string)

  datatype Action =
    | UiActs(step: Popups.UiStep)
    | HotkeyPressed(host: Option<string>, application: Option<string>)
    | TickerFires
    | ShutdownAsked
    | TakeRequest
    | WorkerRuns(env: Env)
    | Acquire(thread: nat)
    | WantPin(thread: nat)
    | DrainOne(thread: nat)
    | DrainDone(thread: nat)
    | AskUser(thread: nat, retry: bool)
    | ReceivePin(thread: nat)
    | PinTimesOut(thread: nat)
    | Finish(thread: nat, who: Authenticator, now: int)
    | Release(thread: nat)
    | TailRuns(thread: nat, env: Env)

  // ---- The popup ----------------------------------------------------------------------------

  function Tag(s: State, sent: seq<UiRequest>): seq<Tagged> {
    seq(|sent|, i requires 0 <= i < |sent| =>
      Tagged(sent[i], |s.log|,
             Warrant(if sent[i].DeleteRequest? then sent[i].id else Nil(),
                     if s.confirmation.Some? then s.confirmation.value else 0, |s.log|, 0, 0, 0)))
  }

  function UiEnabled(s: State, step: Popups.UiStep): bool {
    && Popups.Possible(s.ui, step)
    && (step.EventStep? ==> s.events != [] && s.events[0] == step.event)
  }

  predicate Opens(p: Popups.State, p': Popups.State) {
    p'.mode.ConfirmDelete? && !p.mode.ConfirmDelete?
  }

  function UiNote(s: State, r: Popups.Stepped): Log {
    if Opens(s.ui, r.state) then [ConfirmOpened(r.state.mode.id, r.state.mode.name, r.state.ranked)]
    else if s.confirmation.Some? && |r.sent| == 1 && r.sent[0].DeleteRequest?
    then [ConfirmAccepted(s.confirmation.value, r.sent[0].id)]
    else if |r.sent| == 1 && r.sent[0].PinResponse? then [PinSent]
    else []
  }

  function UiStep(t: Popups.Tools, s: State, step: Popups.UiStep): State
    requires UiEnabled(s, step)
  {
    var r := Popups.Step(t, s.ui, step);
    s.(ui := r.state,
       events := if step.EventStep? then s.events[1..] else s.events,
       requests := s.requests + Tag(s, r.sent),
       confirmation := if Opens(s.ui, r.state) then Some(|s.log|) else if r.state.mode.ConfirmDelete? then s.confirmation else None,
       log := s.log + UiNote(s, r))
  }

  // ---- The worker -----------------------------------------------------------------------------

  function TakeHead(s: State): State
    requires s.requests != []
  {
    var head, s1 := s.requests[0], s.(requests := s.requests[1..]);
    match head.request
    case UnlockRequest => s1.(worker := Claiming)
    case Use(id) => s1.(worker := Acting(UseAct(id)))
    case Dismissed => s1
    case TouchRequest => s1.(worker := Acting(TouchAct))
    case BeginEdit(id) => s1.(worker := ReadingFlag(EditCheck(id)))
    case Save(meta, payload, isUpdate) => s1.(worker := ReadingFlag(SaveCheck(meta, payload, isUpdate)))
    case DeleteRequest(id) => s1.(worker := Relocking(head.warrant.(id := id)))
    case PinResponse(pin) => s1.(answers := s.answers + [Answer(pin, head.sent, |s.log|)], log := s.log + [PinEnqueued(head.sent)])
  }

  /** The worker learns the lock state that it asked for. */
  function Resolve(s: State, check: Check, state: UiLockState): State {
    match check
    case HotkeyCheck(host, application) =>
      if state.UiUnlocked? then s.(worker := Acting(ListAct(host, application)))
      else s.(worker := ReadingFlag(HotkeyShown(false)), events := s.events + [Show([], host, application)])
    case HotkeyShown(unlocked) =>
      s.(worker := if unlocked then Acting(TouchAct) else Claiming, events := s.events + [LockChanged(state)])
    case TickerCheck =>
      s.(worker := Idle, lastState := state,
         events := s.events + if state != s.lastState || state.UiUnlocked? then [LockChanged(state)] else [])
    case EditCheck(id) => s.(worker := if state.UiUnlocked? then Acting(EditAct(id)) else SpawningAssertion(EditAct(id)))
    case SaveCheck(meta, payload, isUpdate) =>
      var act := SaveAct(meta, payload, isUpdate);
      s.(worker := if state.UiUnlocked? then Acting(act) else SpawningAssertion(act))
  }

  /** The metadata for a refresh: nothing is sent when the list cannot be read. */
  function Refreshed(r: Result<seq<SecretMeta>, Sessions.SessionError>): seq<DaemonEvent> {
    if r.Ok? then [Refresh(r.value)] else []
  }

  function Perform(s: State, act: Act, e: Env): State
    requires RowOrder(s.session.tables, e.order)
  {
    match act
    case TouchAct => s.(session := Sessions.Touch(s.session, e.clock.check), worker := Idle)
    case UseAct(id) =>
      var r := Sessions.OpenSecret(s.session, id, e.clock);
      if r.1.Err? then s.(session := r.0, events := s.events + [Error(e.message)], worker := Idle)
      else s.(session := r.0, events := s.events + [Hide], worker := Delivering(r.1.value.value))
    case ListAct(host, application) =>
      var r := Sessions.ListSecrets(s.session, e.order, e.lower, e.clock.check);
      s.(session := r.0, worker := ReadingFlag(HotkeyShown(true)),
         events := s.events + [Show(if r.1.Ok? then r.1.value else [], host, application)])
    case EditAct(id) =>
      var m := Sessions.MetaFor(s.session, id, e.clock.check);
      if m.1.Err? then s.(session := m.0, events := s.events + [Error(e.message)], worker := Idle)
      else
        var r := Sessions.OpenSecret(m.0, id, e.clock);
        s.(session := r.0, worker := Idle,
           events := s.events + [if r.1.Ok? then EditReady(m.1.value, r.1.value) else Error(e.message)])
    case SaveAct(meta, payload, isUpdate) =>
      var r := if isUpdate then Sessions.Update(s.session, meta, payload, e.rand, e.clock)
               else Sessions.Add(s.session, meta, payload, e.rand, e.clock);
      if r.1.Err? then s.(session := r.0, events := s.events + [Error(e.message)], worker := Idle)
      else s.(session := r.0, events := s.events + [Status(e.message)], worker := Acting(RefreshAct))
    case DeleteAct(w) =>
      var r := Sessions.Delete(s.session, w.id);
      if r.1.Err? then s.(session := r.0, events := s.events + [Error(e.message)], worker := Idle)
      else s.(session := r.0, events := s.events + [Status(e.message)], worker := Acting(RefreshAct), log := s.log + [Deleted(w)])
    case RefreshAct =>
      var r := Sessions.ListSecrets(s.session, e.order, e.lower, e.clock.check);
      s.(session := r.0, events := s.events + Refreshed(r.1), worker := Idle)
    case ShutdownAct => s.(session := Sessions.Lock(s.session), worker := Stopped)
  }

  predicate WorkerEnabled(s: State) {
    match s.worker
    case Idle => false
    case Stopped => false
    case ReadingSession(_) => s.holder.None?
    case Relocking(_) => s.holder.None?
    case Acting(_) => s.holder.None?
    case Awaiting(_, i) => i < |s.threads| && s.threads[i].at.Finished?
    case _ => true
  }

  /** The awaited assertion ended: go on if it unlocked, give up if not. */
  function Awaited(s: State, next: Act, i: nat, e: Env): State
    requires i < |s.threads| && s.threads[i].at.Finished?
  {
    var t := s.threads[i].at;
    var s1 := s.(threads := s.threads[i := s.threads[i].(at := Gone)]);
    if !t.unlocked then s1.(worker := Idle, events := s.events + [Error(e.message)])
    else if next.DeleteAct? then s1.(worker := Acting(DeleteAct(next.warrant.(beganAt := t.began, endedAt := t.ended))))
    else s1.(worker := Acting(next))
  }

  function WorkerStep(s: State, e: Env): State
    requires WorkerEnabled(s) && RowOrder(s.session.tables, e.order)
  {
    match s.worker
    case ReadingFlag(check) =>
      if s.inFlight then Resolve(s, check, WaitingForTouch) else s.(worker := ReadingSession(check))
    case ReadingSession(check) =>
      var r := Sessions.Tick(s.session, e.clock.check);
      Resolve(s.(session := r.0), check, ForUi(r.1))
    case Claiming =>
      if s.inFlight then s.(worker := Idle) else s.(inFlight := true, worker := Spawning, log := s.log + [UnlockClaimed])
    case Spawning =>
      s.(worker := Idle, events := s.events + [LockChanged(WaitingForTouch)],
         threads := s.threads + [Thread(true, |s.log|, Wanting)])
    case Relocking(w) =>
      s.(session := Sessions.Lock(s.session), log := s.log + [Relocked(w.acceptedAt, w.id)],
         worker := SpawningAssertion(DeleteAct(w.(relockedAt := |s.log|))))
    case SpawningAssertion(next) =>
      s.(worker := Awaiting(next, |s.threads|), threads := s.threads + [Thread(false, |s.log|, Wanting)])
    case Awaiting(next, i) => Awaited(s, next, i, e)
    case Acting(act) => Perform(s, act, e)
    case Delivering(value) =>
      s.(worker := Idle, typed := s.typed + if e.delivered then [value] else [],
         events := s.events + [if e.delivered then Status(e.message) else Error(e.message)])
    case Idle => s
    case Stopped => s
  }

  // ---- The threads --------------------------------------------------------------------------------

  /** Where the answers were sent that still stand among the requests. */
  function PinsWaiting(requests: seq<Tagged>): set<nat> {
    set k | 0 <= k < |requests| && requests[k].request.PinResponse? :: requests[k].sent
  }

  predicate At(s: State, i: nat) {
    i < |s.threads|
  }

  function Move(s: State, i: nat, at: ThreadAt): State
    requires At(s, i)
  {
    s.(threads := s.threads[i := s.threads[i].(at := at)])
  }

  ghost predicate ThreadEnabled(s: State, a: Action) {
    match a
    case Acquire(i) => At(s, i) && s.threads[i].at.Wanting? && s.holder.None?
    case WantPin(i) => At(s, i) && s.threads[i].at.Asserting? && s.threads[i].at.pin.NoPin?
    case DrainOne(i) => At(s, i) && s.threads[i].at.Asserting? && s.threads[i].at.pin.Draining? && s.answers != []
    case DrainDone(i) => At(s, i) && s.threads[i].at.Asserting? && s.threads[i].at.pin.Draining? && s.answers == []
    case AskUser(i, _) => At(s, i) && s.threads[i].at.Asserting? && s.threads[i].at.pin.Drained?
    case ReceivePin(i) => At(s, i) && s.threads[i].at.Asserting? && s.threads[i].at.pin.Waiting? && s.answers != []
    case PinTimesOut(i) => At(s, i) && s.threads[i].at.Asserting? && s.threads[i].at.pin.Waiting?
    case Finish(i, _, _) => At(s, i) && s.threads[i].at.Asserting? && s.threads[i].at.pin.NoPin?
    case Release(i) => At(s, i) && s.threads[i].at.Finished? && s.threads[i].claimed
    case TailRuns(i, e) =>
      At(s, i) && RowOrder(s.session.tables, e.order)
      && (s.threads[i].at.TailFlag? || s.threads[i].at.TailFailed?
          || ((s.threads[i].at.TailSession? || s.threads[i].at.TailRefresh?) && s.holder.None?))
    case _ => false
  }

  function ThreadStep(s: State, a: Action): State
    requires ThreadEnabled(s, a)
  {
    var i := a.thread;
    match a
    case Acquire(_) => Move(s, i, Asserting(|s.log|, NoPin)).(holder := Some(i), log := s.log + [AssertionBegan(i)])
    case WantPin(_) => Move(s, i, s.threads[i].at.(pin := Draining))
    case DrainOne(_) => s.(answers := s.answers[1..])
    case DrainDone(_) => Move(s, i, s.threads[i].at.(pin := Drained(|s.log|))).(log := s.log + [PinDrained(i, PinsWaiting(s.requests))])
    case AskUser(_, retry) =>
      Move(s, i, s.threads[i].at.(pin := Waiting(s.threads[i].at.pin.mark))).(events := s.events + [RequestPin(retry)])
    case ReceivePin(_) =>
      Move(s, i, s.threads[i].at.(pin := NoPin)).(
        answers := s.answers[1..], log := s.log + [PinReceived(i, s.threads[i].at.pin.mark, s.answers[0].sent, s.answers[0].at)])
    case PinTimesOut(_) => Move(s, i, s.threads[i].at.(pin := NoPin))
    case Finish(_, who, now) =>
      var r := Sessions.Unlock(s.session, who, now);
      Move(s, i, Finished(r.1.Ok?, s.threads[i].at.began, |s.log|)).(
        session := r.0, holder := None, log := s.log + [AssertionEnded(i, r.1.Ok?)])
    case Release(_) =>
      Move(s, i, if s.threads[i].at.unlocked then TailFlag else TailFailed).(inFlight := false, log := s.log + [UnlockReleased(i)])
    case TailRuns(_, e) => TailStep(s, i, e)
  }

  /** What a spawned unlock does after its claim is released. */
  function TailStep(s: State, i: nat, e: Env): State
    requires At(s, i) && RowOrder(s.session.tables, e.order)
  {
    match s.threads[i].at
    case TailFlag =>
      if s.inFlight then Move(s, i, TailRefresh).(events := s.events + [LockChanged(WaitingForTouch)])
      else Move(s, i, TailSession)
    case TailSession =>
      var r := Sessions.Tick(s.session, e.clock.check);
      Move(s, i, TailRefresh).(session := r.0, events := s.events + [LockChanged(ForUi(r.1))])
    case TailRefresh =>
      var r := Sessions.ListSecrets(s.session, e.order, e.lower, e.clock.check);
      Move(s, i, Gone).(session := r.0, events := s.events + Refreshed(r.1) + [Status(e.message)])
    case TailFailed => Move(s, i, Gone).(events := s.events + [LockChanged(UiLocked), Error(e.message)])
    case _ => s
  }

  // ---- Runs ------------------------------------------------------------------------------------------

  ghost predicate Enabled(s: State, a: Action) {
    match a
    case UiActs(step) => UiEnabled(s, step)
    case HotkeyPressed(_, _) => s.worker.Idle?
    case TickerFires => s.worker.Idle?
    case ShutdownAsked => s.worker.Idle?
    case TakeRequest => s.worker.Idle? && s.requests != []
    case WorkerRuns(e) => WorkerEnabled(s) && RowOrder(s.session.tables, e.order)
    case _ => ThreadEnabled(s, a)
  }

  ghost function Apply(t: Popups.Tools, s: State, a: Action): State
    requires Enabled(s, a)
  {
    match a
    case UiActs(step) => UiStep(t, s, step)
    case HotkeyPressed(host, application) => s.(worker := ReadingFlag(HotkeyCheck(host, application)))
    case TickerFires => s.(worker := ReadingFlag(TickerCheck))
    case ShutdownAsked => s.(worker := Acting(ShutdownAct))
    case TakeRequest => TakeHead(s)
    case WorkerRuns(e) => WorkerStep(s, e)
    case _ => ThreadStep(s, a)
  }

  /** The daemon starts with a locked session, a hidden popup and no threads. */
  function Start(session: Sessions.State): State {
    State(Popups.Initial(), [], [], None, Idle, UiLocked, [], None, false, session, [], [], [])
  }

  ghost predicate ValidRun(t: Popups.Tools, s: State, actions: seq<Action>)
    decreases |actions|
  {
    actions != [] ==> Enabled(s, actions[0]) && ValidRun(t, Apply(t, s, actions[0]), actions[1..])
  }

  ghost function Run(t: Popups.Tools, s: State, actions: seq<Action>): State
    requires ValidRun(t, s, actions)
    decreases |actions|
  {
    if actions == [] then s else Run(t, Apply(t, s, actions[0]), actions[1..])
  }

  /** The state that the first `j` actions lead to. */
  ghost function StateAt(t: Popups.Tools, s: State, actions: seq<Action>, j: nat): State
    requires ValidRun(t, s, actions) && j <= |actions|
    decreases j
  {
    if j == 0 then s else StateAt(t, Apply(t, s, actions[0]), actions[1..], j - 1)
  }

  lemma {:induction false} StatesOfRun(t: Popups.Tools, s: State, actions: seq<Action>, j: nat)
    requires ValidRun(t, s, actions) && j <= |actions|
    ensures j < |actions| ==> Enabled(StateAt(t, s, actions, j), actions[j])
    ensures j == |actions| ==> StateAt(t, s, actions, j) == Run(t, s, actions)
    decreases j
  {
    hide Apply, Enabled;
    if j > 0 {
      StatesOfRun(t, Apply(t, s, actions[0]), actions[1..], j - 1);
    }
  }

  /** A run's last step, seen from the front. */
  lemma {:induction false} StateAtPrefix(t: Popups.Tools, s: State, actions: seq<Action>, n: nat)
    requires ValidRun(t, s, actions) && n <= |actions|
    ensures ValidRun(t, s, actions[..n])
    ensures forall j: nat | j <= n :: StateAt(t, s, actions[..n], j) == StateAt(t, s, actions, j)
    decreases n
  {
    hide Apply, Enabled;
    if n > 0 {
      var s1 := Apply(t, s, actions[0]);
      assert actions[..n][1..] == actions[1..][..n - 1];
      StateAtPrefix(t, s1, actions[1..], n - 1);
      forall j: nat | j <= n ensures StateAt(t, s, actions[..n], j) == StateAt(t, s, actions, j) {
        if j > 0 {
          assert StateAt(t, s, actions[..n], j) == StateAt(t, s1, actions[1..][..n - 1], j - 1);
        }
      }
    }
  }
}
