/** The idle timeout over whole runs: no operation gets past its lock check without a recent renewal
    of an unlock that nothing has locked since. */
module TimedSafety {
  import opened Common
  import opened Symbolic
  import opened Keys
  import opened Sessions
  import opened VaultRuns
  import opened VaultSafety

  /** What one operation and its result show from outside about the unlock window. */
  datatype Event =
    | Opened(at: int)     // an initialisation or a successful unlock
    | Renewed(at: int)    // a touch, or an operation that touches when it succeeds
    | Closed              // a lock, a restart, or an answer that the vault is locked
    | Quiet

  function EventOf(op: Op, outcome: Outcome): Event {
    match outcome
    case Done(Ok(_)) =>
      (match op
       case UnlockOp(_, now) => Opened(now)
       case TouchOp(now) => Renewed(now)
       case EnrollOp(_, _, _, clock) => Renewed(clock.renew)
       case AddOp(_, _, _, clock) => Renewed(clock.renew)
       case UpdateOp(_, _, _, clock) => Renewed(clock.renew)
       case LockOp => Closed
       case RestartOp(_, _) => Closed
       case _ => Quiet)
    case GotPayload(Ok(_)) => if op.OpenOp? then Renewed(op.clock.renew) else Quiet
    case Done(Err(e)) => if e == VaultLocked then Closed else Quiet
    case Ticked(state) => if state == Locked then Closed else Quiet
    case Listed(r) => if r == Err(VaultLocked) then Closed else Quiet
    case GotMeta(r) => if r == Err(VaultLocked) then Closed else Quiet
    case GotPayload(r) => if r == Err(VaultLocked) then Closed else Quiet
  }

  ghost function Events(s: Sessions.State, ops: seq<Op>): (r: seq<Event>)
    requires ValidRun(s, ops)
    ensures |r| == |ops|
  {
    seq(|ops|, i requires 0 <= i < |ops| => EventOf(ops[i], Outcomes(s, ops)[i]))
  }

  /** The latest renewal of the unlock that is still open at the end of a history. */
  function Window(h: seq<Event>): Option<int>
    decreases |h|
  {
    if h == [] then None
    else
      var before := Window(h[..|h| - 1]);
      match h[|h| - 1]
      case Opened(at) => Some(at)
      case Renewed(at) => if before.Some? then Some(at) else None
      case Closed => None
      case Quiet => before
  }

  /** What a window means: some unlock opened it, nothing closed it since, and its instant is that of
      the unlock or of a later renewal. */
  lemma {:induction false} WindowMeans(h: seq<Event>) returns (u: nat, i: nat)
    requires Window(h).Some?
    ensures u <= i < |h| && h[u].Opened?
    ensures h[i] == Opened(Window(h).value) || h[i] == Renewed(Window(h).value)
    ensures forall j | u < j < |h| :: h[j] != Closed
    decreases |h|
  {
    var n := |h| - 1;
    match h[n] {
      case Opened(_) => u, i := n, n;
      case Renewed(_) =>
        var u', _ := WindowMeans(h[..n]);
        u, i := u', n;
      case Quiet => u, i := WindowMeans(h[..n]);
    }
  }

  ghost predicate DeadlineIs(g: Ideal, h: seq<Event>) {
    match Window(h)
    case None => g.deadline == None
    case Some(at) => g.deadline == Some(at + g.timeout)
  }

  lemma DeadlineStep(g: Ideal, h: seq<Event>, op: Op)
    requires DeadlineIs(g, h) && IdealPossible(g, op)
    ensures DeadlineIs(IdealStep(g, op).0, h + [EventOf(op, IdealStep(g, op).1)])
  {
    var e := EventOf(op, IdealStep(g, op).1);
    assert (h + [e])[..|h|] == h;
  }

  /** The deadline is the window plus the timeout, after any run from an initialisation at `start`. */
  lemma {:induction false} DeadlineFollowsWindow(s: Sessions.State, g: Ideal, ops: seq<Op>, h: seq<Event>)
    requires Inv(s, g) && ValidRun(s, ops) && DeadlineIs(g, h)
    ensures IdealValidRun(g, ops) && Inv(Run(s, ops), IdealRun(g, ops))
    ensures DeadlineIs(IdealRun(g, ops), h + Events(s, ops))
    decreases |ops|
  {
    hide Inv, Step, IdealStep, Possible, IdealPossible, DeadlineIs, EventOf;
    RunRefines(s, g, ops);
    if ops == [] {
      assert h + Events(s, ops) == h;
    } else {
      StepRefines(s, g, ops[0]);
      DeadlineStep(g, h, ops[0]);
      var e := EventOf(ops[0], Step(s, ops[0]).1);
      DeadlineFollowsWindow(Step(s, ops[0]).0, IdealStep(g, ops[0]).0, ops[1..], h + [e]);
      assert h + Events(s, ops) == h + [e] + Events(Step(s, ops[0]).0, ops[1..]);
    }
  }

  /** The operations that need an unlocked vault, and the instant of their lock check. */
  function CheckedAt(op: Op): Option<int> {
    match op
    case EnrollOp(_, _, _, clock) => Some(clock.check)
    case ListOp(_, _, now) => Some(now)
    case MetaForOp(_, now) => Some(now)
    case OpenOp(_, clock) => Some(clock.check)
    case AddOp(_, _, _, clock) => Some(clock.check)
    case UpdateOp(_, _, _, clock) => Some(clock.check)
    case _ => None
  }

  /** The lock check is reached: reading an id that is not stored is refused before it. */
  predicate Reaches(stored: set<Bytes>, op: Op) {
    CheckedAt(op).Some? && (op.MetaForOp? || op.OpenOp? ==> op.id in stored)
  }

  /** The answer is not that the vault is locked, whatever else it is. */
  predicate Passed(outcome: Outcome) {
    match outcome
    case Done(r) => r != Err(VaultLocked)
    case Ticked(_) => false
    case Listed(r) => r != Err(VaultLocked)
    case GotMeta(r) => r != Err(VaultLocked)
    case GotPayload(r) => r != Err(VaultLocked)
  }

  /** The instants of one operation, in order. */
  function Instants(op: Op): seq<int> {
    match op
    case EnrollOp(_, _, _, clock) => [clock.check, clock.renew]
    case UnlockOp(_, now) => [now]
    case LockOp => []
    case TickOp(now) => [now]
    case TouchOp(now) => [now]
    case ListOp(_, _, now) => [now]
    case MetaForOp(_, now) => [now]
    case OpenOp(_, clock) => [clock.check, clock.renew]
    case AddOp(_, _, _, clock) => [clock.check, clock.renew]
    case UpdateOp(_, _, _, clock) => [clock.check, clock.renew]
    case DeleteOp(_) => []
    case RestartOp(_, _) => []
  }

  /** A nondecreasing clock that reads at least `now` at the start of the run. */
  ghost predicate ClockRuns(ops: seq<Op>, now: int)
    decreases |ops|
  {
    ops != [] ==>
      && Rises([now] + Instants(ops[0]))
      && ClockRuns(ops[1..], Latest(ops[0], now))
  }

  ghost predicate Rises(times: seq<int>) {
    forall i, j | 0 <= i < j < |times| :: times[i] <= times[j]
  }

  function Latest(op: Op, now: int): int {
    var times := Instants(op);
    if times == [] then now else times[|times| - 1]
  }

  ghost predicate WindowBy(h: seq<Event>, now: int) {
    Window(h).Some? ==> Window(h).value <= now
  }

  lemma WindowStep(h: seq<Event>, now: int, op: Op, outcome: Outcome)
    requires WindowBy(h, now) && Rises([now] + Instants(op))
    ensures WindowBy(h + [EventOf(op, outcome)], Latest(op, now))
    ensures forall t | t in Instants(op) :: now <= t
  {
    var e := EventOf(op, outcome);
    assert (h + [e])[..|h|] == h;
    var times := [now] + Instants(op);
    forall t | t in Instants(op) ensures now <= t <= Latest(op, now) {
      var i :| 0 <= i < |Instants(op)| && Instants(op)[i] == t;
      assert times[0] == now && times[i + 1] == t;
      assert times[|times| - 1] == Latest(op, now);
    }
    assert Instants(op) != [] ==> Latest(op, now) in Instants(op);
    assert e.Opened? || e.Renewed? ==> e.at in Instants(op);
  }

  function LatestOf(ops: seq<Op>, now: int): int
    decreases |ops|
  {
    if ops == [] then now else LatestOf(ops[1..], Latest(ops[0], now))
  }

  lemma {:induction false} ClockSplits(ops: seq<Op>, last: Op, now: int)
    requires ClockRuns(ops + [last], now)
    ensures ClockRuns(ops, now) && Rises([LatestOf(ops, now)] + Instants(last))
    decreases |ops|
  {
    hide Rises, Instants, Latest;
    if ops == [] {
      assert ops + [last] == [last];
    } else {
      assert (ops + [last])[1..] == ops[1..] + [last];
      ClockSplits(ops[1..], last, Latest(ops[0], now));
    }
  }

  lemma {:induction false} WindowFollowsClock(s: Sessions.State, ops: seq<Op>, h: seq<Event>, now: int)
    requires ValidRun(s, ops) && WindowBy(h, now) && ClockRuns(ops, now)
    ensures WindowBy(h + Events(s, ops), LatestOf(ops, now))
    decreases |ops|
  {
    hide Step, Possible, EventOf, WindowBy, Rises, Instants, Latest, Events;
    if ops == [] {
      assert Events(s, ops) == [] && h + [] == h;
    } else {
      WindowStep(h, now, ops[0], Step(s, ops[0]).1);
      var e := EventOf(ops[0], Step(s, ops[0]).1);
      var rest := Events(Step(s, ops[0]).0, ops[1..]);
      WindowFollowsClock(Step(s, ops[0]).0, ops[1..], h + [e], Latest(ops[0], now));
      EventsCons(s, ops);
      assert h + ([e] + rest) == h + [e] + rest;
    }
  }

  lemma EventsCons(s: Sessions.State, ops: seq<Op>)
    requires ValidRun(s, ops) && ops != []
    ensures Events(s, ops) == [EventOf(ops[0], Step(s, ops[0]).1)] + Events(Step(s, ops[0]).0, ops[1..])
  {
    hide Step, Possible, EventOf;
    var rest := Events(Step(s, ops[0]).0, ops[1..]);
    forall i | 1 <= i < |ops| ensures Events(s, ops)[i] == rest[i - 1] {
      assert ops[1..][i - 1] == ops[i];
    }
  }

  /** The timed safety theorem. After an initialisation or unlock recorded in `h`, take any run under
      a nondecreasing clock. An operation that reaches its lock check at instant t gets past it, whether
      or not it then succeeds, exactly when t is within the timeout of the latest renewal of an unlock
      that nothing closed since. */
  lemma PassesExactlyInsideTheWindow(s: Sessions.State, g: Ideal, h: seq<Event>, start: int, ops: seq<Op>, last: Op)
    requires Inv(s, g) && DeadlineIs(g, h) && WindowBy(h, start)
    requires ValidRun(s, ops + [last]) && ClockRuns(ops + [last], start)
    ensures ValidRun(s, ops)
    ensures Reaches(Run(s, ops).tables.rows.Keys, last) ==>
              var (t, w) := (CheckedAt(last).value, Window(h + Events(s, ops)));
              Passed(Outcomes(s, ops + [last])[|ops|]) <==> w.Some? && w.value <= t < w.value + Run(s, ops).timeout
  {
    hide Inv, Step, IdealStep, Possible, IdealPossible, EventOf, DeadlineIs, WindowBy, Events, CheckedAt, Passed, Reaches;
    RunConcat(s, ops, [last]);
    var s' := Run(s, ops);
    assert Outcomes(s, ops + [last])[|ops|] == Outcomes(s', [last])[0] == Step(s', last).1;
    DeadlineFollowsWindow(s, g, ops, h);
    ClockSplits(ops, last, start);
    WindowFollowsClock(s, ops, h, start);
    PassesNow(s', IdealRun(g, ops), h + Events(s, ops), LatestOf(ops, start), last);
    assert Reaches(s'.tables.rows.Keys, last) ==> CheckedAt(last).Some? by {
      ReachesAnInstant(s'.tables.rows.Keys, last);
    }
  }

  lemma ReachesAnInstant(stored: set<Bytes>, op: Op)
    ensures Reaches(stored, op) ==> CheckedAt(op).Some?
  {
  }

  lemma PassesNow(s: Sessions.State, g: Ideal, h: seq<Event>, start: int, op: Op)
    requires Inv(s, g) && DeadlineIs(g, h) && WindowBy(h, start) && Possible(s, op)
    requires Rises([start] + Instants(op))
    ensures Reaches(s.tables.rows.Keys, op) ==>
              var (t, w) := (CheckedAt(op).value, Window(h));
              Passed(Step(s, op).1) <==> w.Some? && w.value <= t < w.value + s.timeout
  {
    hide Step, IdealStep, Passed, EventOf, Possible, IdealPossible, MetaTableMatches, EnrollmentsStored, Holds;
    StepRefines(s, g, op);
    WindowStep(h, start, op, Step(s, op).1);
    if Reaches(s.tables.rows.Keys, op) {
      PassedWhileUnlocked(g, op);
      assert CheckedAt(op).value in Instants(op);
    }
  }

  lemma PassedWhileUnlocked(g: Ideal, op: Op)
    requires IdealPossible(g, op) && Reaches(g.contents.Keys, op)
    ensures Passed(IdealStep(g, op).1) <==> g.deadline.Some? && CheckedAt(op).value < g.deadline.value
  {
  }

  /** The history that an initialisation at `start` leaves. */
  lemma InitializeOpensTheWindow(outer: Key, a: Authenticator, rand: InitRandom, timeout: nat, start: int)
    requires a.provision([]).Ok? && a.answer(a.provision([]).value, rand.hmacSalt).Ok?
    ensures DeadlineIs(Created(outer, a, rand, timeout, start), [Opened(start)]) && WindowBy([Opened(start)], start)
  {
  }
}
