/** One actor process (pkg/actor/actor.go): senders, the receive loop and stop calls as
    interleaved steps over a bounded mailbox. */
module Mailbox {
  import opened Text

  const CAPACITY: nat := 100

  // How far the Stop call that set the flag has come.
  datatype Stopper = NotCalled | FlagSet | Cancelled | Returned

  datatype Process<M> = Process(
    mailbox: seq<M>,
    inFlight: multiset<M>,         // sends past the stopped check, not yet accepted or refused
    stopper: Stopper,
    current: Option<M>,            // the message being handled
    exited: bool,                  // the receive loop has returned
    accepted: seq<M>,              // messages whose Send returned true or will
    processed: seq<M>              // messages whose handling ended, by return or by panic
  )
  {
    predicate IsStopped() { stopper != NotCalled }
    predicate IsCancelled() { stopper == Cancelled || stopper == Returned }
  }

  function Fresh<M>(): Process<M> { Process([], multiset{}, NotCalled, None, false, [], []) }

  datatype Step<M> =
    | BeginSend(msg: M)            // the stopped check passes
    | Accept(msg: M)               // the mailbox has room
    | Refuse(msg: M)               // the context is done
    | Receive                      // the loop takes a message, also after cancellation
    | Finish(panicked: bool)       // handling ends; a panic is recovered
    | Exit                         // the loop sees the context done
    | SetFlag | Cancel | Return    // the first Stop call
    | StopAgain                    // any later Stop call, which returns at once

  predicate Enabled<M(==)>(p: Process<M>, step: Step<M>)
  {
    match step
    case BeginSend(_) => !p.IsStopped()
    case Accept(m) => m in p.inFlight && |p.mailbox| < CAPACITY
    case Refuse(m) => m in p.inFlight && p.IsCancelled()
    case Receive => !p.exited && p.current.None? && p.mailbox != []
    case Finish(_) => p.current.Some?
    case Exit => !p.exited && p.current.None? && p.IsCancelled()
    case SetFlag => p.stopper == NotCalled
    case Cancel => p.stopper == FlagSet
    case Return => p.stopper == Cancelled && p.exited
    case StopAgain => p.IsStopped()
  }

  function Do<M(==)>(p: Process<M>, step: Step<M>): Process<M>
    requires Enabled(p, step)
  {
    match step
    case BeginSend(m) => p.(inFlight := p.inFlight + multiset{m})
    case Accept(m) => p.(inFlight := p.inFlight - multiset{m}, mailbox := p.mailbox + [m], accepted := p.accepted + [m])
    case Refuse(m) => p.(inFlight := p.inFlight - multiset{m})
    case Receive => p.(current := Some(p.mailbox[0]), mailbox := p.mailbox[1..])
    case Finish(_) => p.(current := None, processed := p.processed + [p.current.value])
    case Exit => p.(exited := true)
    case SetFlag => p.(stopper := FlagSet)
    case Cancel => p.(stopper := Cancelled)
    case Return => p.(stopper := Returned)
    case StopAgain => p
  }

  // A run: each step is enabled where it happens.
  ghost predicate Runs<M>(p: Process<M>, steps: seq<Step<M>>)
    decreases steps
  {
    steps == [] || (Enabled(p, steps[0]) && Runs(Do(p, steps[0]), steps[1..]))
  }

  ghost function After<M>(p: Process<M>, steps: seq<Step<M>>): Process<M>
    requires Runs(p, steps)
    decreases steps
  {
    if steps == [] then p else After(Do(p, steps[0]), steps[1..])
  }

  // ---------------------------------------------------------------- conservation

  function Handled<M>(p: Process<M>): seq<M> { match p.current case None => [] case Some(m) => [m] }

  // No accepted message is lost, duplicated or reordered, and the mailbox stays bounded.
  ghost predicate Conserves<M>(p: Process<M>)
  {
    && p.accepted == p.processed + Handled(p) + p.mailbox
    && |p.mailbox| <= CAPACITY
    && (p.exited ==> p.IsCancelled() && p.current.None?)
    && (p.stopper == Returned ==> p.exited)
  }

  lemma DoConserves<M>(p: Process<M>, step: Step<M>)
    requires Conserves(p) && Enabled(p, step)
    ensures Conserves(Do(p, step)) && p.accepted <= Do(p, step).accepted && p.processed <= Do(p, step).processed
  {
    match step {
      case Accept(m) =>
        assert p.accepted + [m] == p.processed + Handled(p) + (p.mailbox + [m]);
      case Receive =>
        assert p.mailbox == [p.mailbox[0]] + p.mailbox[1..];
      case _ =>
    }
  }

  // Over every run from a fresh process, whatever panics and however sends, receives and stops
  // interleave.
  lemma {:induction false} RunConserves<M>(p: Process<M>, steps: seq<Step<M>>)
    requires Conserves(p) && Runs(p, steps)
    ensures Conserves(After(p, steps)) && p.accepted <= After(p, steps).accepted && p.processed <= After(p, steps).processed
    decreases steps
  {
    if steps != [] {
      DoConserves(p, steps[0]);
      RunConserves(Do(p, steps[0]), steps[1..]);
    }
  }

  // ---------------------------------------------------------------- after Stop

  // Once the loop has exited, nothing is ever processed again.
  lemma {:induction false} ExitedIsFinal<M>(p: Process<M>, steps: seq<Step<M>>)
    requires Conserves(p) && p.exited && Runs(p, steps)
    ensures After(p, steps).processed == p.processed && After(p, steps).exited
    decreases steps
  {
    if steps != [] {
      DoConserves(p, steps[0]);
      ExitedIsFinal(Do(p, steps[0]), steps[1..]);
    }
  }

  // After the Stop call that set the flag returns, no message is handled.
  lemma NothingAfterStop<M>(p: Process<M>, steps: seq<Step<M>>)
    requires Conserves(p) && p.stopper == Returned && Runs(p, steps)
    ensures After(p, steps).processed == p.processed && After(p, steps).current.None?
  {
    ExitedIsFinal(p, steps);
    RunConserves(p, steps);
  }

  // Once the flag is set no further send begins: only those on their way can still be accepted.
  lemma {:induction false} NoSendAfterStop<M>(p: Process<M>, steps: seq<Step<M>>)
    requires p.IsStopped() && Runs(p, steps)
    ensures var q := After(p, steps); q.IsStopped() && q.inFlight <= p.inFlight && |q.accepted| + |q.inFlight| <= |p.accepted| + |p.inFlight|
    decreases steps
  {
    if steps != [] {
      NoSendAfterStop(Do(p, steps[0]), steps[1..]);
    }
  }

  // A cancelled stop can always return: the loop finishes what it has in hand and exits.
  lemma StopCanReturn<M>(p: Process<M>) returns (steps: seq<Step<M>>)
    requires Conserves(p) && p.stopper == Cancelled
    ensures Runs(p, steps) && After(p, steps).stopper == Returned && |steps| <= 3
  {
    var p1 := if p.current.Some? then Do(p, Finish(false)) else p;
    var p2 := if p1.exited then p1 else Do(p1, Exit);
    OneMore(p2, Return, []);
    steps := [Return];
    if !p1.exited {
      OneMore(p1, Exit, steps);
      steps := [Exit] + steps;
    }
    if p.current.Some? {
      OneMore(p, Finish(false), steps);
      steps := [Finish(false)] + steps;
    }
  }

  // A stopped process still has something it may handle.
  predicate Pending<M>(p: Process<M>)
  {
    !p.exited && (p.current.Some? || p.mailbox != [] || p.inFlight != multiset{})
  }

  // Any other Stop call returns at once, and then processing can go on exactly when the loop is
  // running and a message is in hand, in the mailbox or on its way.
  lemma LaterStopIsNoBarrier<M>(p: Process<M>)
    requires Conserves(p) && p.IsStopped()
    ensures Enabled(p, StopAgain) && Do(p, StopAgain) == p
    ensures Pending(p) <==> exists steps :: Runs(p, steps) && |After(p, steps).processed| > |p.processed|
  {
    if Pending(p) {
      var steps := MoreSteps(p);
      assert Runs(p, steps) && |After(p, steps).processed| > |p.processed|;
    } else {
      forall steps | Runs(p, steps) ensures After(p, steps).processed == p.processed {
        IdleStays(p, steps);
      }
    }
  }

  lemma MoreSteps<M>(p: Process<M>) returns (steps: seq<Step<M>>)
    requires Conserves(p) && Pending(p)
    ensures Runs(p, steps) && |After(p, steps).processed| > |p.processed|
  {
    if p.current.Some? {
      steps := [Finish(false)];
      OneMore(p, Finish(false), []);
    } else if p.mailbox != [] {
      var q := Do(p, Receive);
      OneMore(q, Finish(false), []);
      OneMore(p, Receive, [Finish(false)]);
      steps := [Receive, Finish(false)];
    } else {
      var m :| m in p.inFlight;
      var q := Do(p, Accept(m));
      var r := Do(q, Receive);
      OneMore(r, Finish(false), []);
      OneMore(q, Receive, [Finish(false)]);
      OneMore(p, Accept(m), [Receive, Finish(false)]);
      steps := [Accept(m), Receive, Finish(false)];
    }
  }

  lemma OneMore<M>(p: Process<M>, step: Step<M>, rest: seq<Step<M>>)
    requires Enabled(p, step) && Runs(Do(p, step), rest)
    ensures Runs(p, [step] + rest) && After(p, [step] + rest) == After(Do(p, step), rest)
  {
    assert ([step] + rest)[1..] == rest;
  }

  lemma {:induction false} IdleStays<M>(p: Process<M>, steps: seq<Step<M>>)
    requires Conserves(p) && p.IsStopped() && !Pending(p) && Runs(p, steps)
    ensures After(p, steps).processed == p.processed
    decreases steps
  {
    if p.exited {
      ExitedIsFinal(p, steps);
    } else if steps != [] {
      DoConserves(p, steps[0]);
      IdleStays(Do(p, steps[0]), steps[1..]);
    }
  }

  // A run of four or of two steps, written out.
  lemma TwoSteps<M>(p: Process<M>, a: Step<M>, b: Step<M>, q: Process<M>, r: Process<M>)
    requires Enabled(p, a) && q == Do(p, a) && Enabled(q, b) && r == Do(q, b)
    ensures Runs(p, [a, b]) && After(p, [a, b]) == r
  {
    OneMore(q, b, []);
    OneMore(p, a, [b]);
    assert [a] + [b] == [a, b];
  }

  lemma FourSteps<M>(p: Process<M>, a: Step<M>, b: Step<M>, c: Step<M>, d: Step<M>, q: Process<M>, r: Process<M>, s: Process<M>)
    requires Enabled(p, a) && q == Do(p, a) && Enabled(q, b) && r == Do(q, b)
    requires Runs(r, [c, d]) && After(r, [c, d]) == s
    ensures Runs(p, [a, b, c, d]) && After(p, [a, b, c, d]) == s
  {
    OneMore(q, b, [c, d]);
    assert [b] + [c, d] == [b, c, d];
    OneMore(p, a, [b, c, d]);
    assert [a] + [b, c, d] == [a, b, c, d];
  }

  // In particular a second Stop can return before a message is handled.
  lemma SecondStopRace(m: int)
    ensures var before := [BeginSend(m), Accept(m), SetFlag, StopAgain]; var after := [Receive, Finish(false)];
            && Runs(Fresh(), before) && Runs(After(Fresh(), before), after)
            && After(Fresh(), before).processed == [] && After(After(Fresh(), before), after).processed == [m]
  {
    var p0: Process<int> := Fresh();
    var p1 := Do(p0, BeginSend(m));
    var p2 := Do(p1, Accept(m));
    var p3 := Do(p2, SetFlag);
    TwoSteps(p2, SetFlag, StopAgain, p3, p3);
    FourSteps(p0, BeginSend(m), Accept(m), SetFlag, StopAgain, p1, p2, p3);
    var p4 := Do(p3, Receive);
    TwoSteps(p3, Receive, Finish(false), p4, Do(p4, Finish(false)));
  }
}
