/** State shared by the threads of the daemon (`state.rs`), and the collection of PINs (`pin.rs`). */
module SharedState {
  import opened Common
  import opened Keys
  import opened Messages
  import Sessions

  function ForUi(s: Sessions.LockState): UiLockState {
    match s case Locked => UiLocked case Unlocked(remaining) => UiUnlocked(remaining)
  }

  /** The popup is told the time that is left until the deadline, and that the vault is locked once there is
      none. */
  lemma TimeLeftIsShown(v: Sessions.State, now: int)
    ensures var shown := ForUi(Sessions.Observe(v, now));
            && (shown.UiUnlocked? <==> v.inner.Some? && v.deadline.Some? && now < v.deadline.value)
            && (shown.UiUnlocked? ==> now + shown.remaining == v.deadline.value)
            && (!shown.UiUnlocked? ==> shown == UiLocked)
  {
  }

  /** The flag of an unlock in flight, and the session behind its mutex; how the threads interleave is
      the subject of `Protocol`. */
  class Shared {
    const session: Sessions.Session
    var unlockInFlight: bool

    constructor (session: Sessions.Session)
      ensures this.session == session && !unlockInFlight
    {
      this.session := session;
      unlockInFlight := false;
    }

    /** `compare_exchange(false, true)`. */
    method BeginUnlock() returns (claimed: bool)
      modifies `unlockInFlight
      ensures unlockInFlight && claimed == !old(unlockInFlight)
    {
      claimed := !unlockInFlight;
      if claimed {
        unlockInFlight := true;
      }
    }

    method EndUnlock()
      modifies `unlockInFlight
      ensures !unlockInFlight
    {
      unlockInFlight := false;
    }

    /** While an assertion is in flight the session is not looked at; otherwise an expired deadline is
        acted on, not merely observed. */
    method LockStateForUi(now: int) returns (r: UiLockState)
      modifies session
      ensures unlockInFlight ==> r == WaitingForTouch && session.View() == old(session.View())
      ensures !unlockInFlight ==>
                && session.View() == Sessions.Tick(old(session.View()), now).0
                && r == ForUi(Sessions.Observe(old(session.View()), now))
      ensures r.UiUnlocked? ==> session.View().inner.Some? && r.remaining > 0
    {
      if unlockInFlight {
        return WaitingForTouch;
      }
      var s := session.DoTick(now);
      r := ForUi(s);
    }
  }

  /** The broker between a blocked assertion and the popup: a channel of answers. */
  class PinBroker {
    /** Answers that were sent and not yet received. */
    var answers: seq<Option<string>>
    /** The prompts that the popup was asked to show: whether each was a retry. */
    var asked: seq<bool>

    constructor ()
      ensures answers == [] && asked == []
    {
      answers := [];
      asked := [];
    }

    method Deliver(answer: Option<string>)
      modifies `answers
      ensures answers == old(answers) + [answer]
    {
      answers := answers + [answer];
    }

    /** Drains the channel, asks, and waits. `arriving` are the answers that come while it waits, in
        order, before the timeout. What stood in the channel before is never the answer; an answer to an
        earlier prompt that the worker had not passed on yet is among the arriving ones. */
    method RequestPin(retry: bool, arriving: seq<Option<string>>) returns (r: Result<string, ProviderError>)
      modifies this
      ensures asked == old(asked) + [retry]
      ensures r == if arriving == [] then Err(Timeout)
                   else if arriving[0].Some? then Ok(arriving[0].value) else Err(Cancelled)
      ensures answers == if arriving == [] then [] else arriving[1..]
    {
      while answers != []
        invariant asked == old(asked)
        decreases |answers|
      {
        answers := answers[1..];
      }
      asked := asked + [retry];
      answers := answers + arriving;
      if answers == [] {
        return Err(Timeout);
      }
      var first := answers[0];
      answers := answers[1..];
      r := if first.Some? then Ok(first.value) else Err(Cancelled);
    }
  }
}
