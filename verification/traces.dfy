/**
 Properties of the receive loop over whole event sequences: composition,
 termination is final, FIFO delivery, and the shape of the receiver trace
 around a failure. `RunLoop` is the `while (true)` loop of `run` as an
 imperative method, proved to agree with the event model.
 */
module ActorTraces {
  import opened Envelopes
  import opened Actors

  /** Running two event sequences one after the other is running their concatenation. */
  lemma {:induction false} RunAppend<S, M, E>(a: Actor<S, M, E>, xs: seq<Event<M, E>>, ys: seq<Event<M, E>>)
    ensures var first := Run(a, xs);
            var second := Run(first.actor, ys);
            Run(a, xs + ys) == Stepped(second.actor, first.calls + second.calls)
    decreases |xs|
  {
    if |xs| == 0 {
      assert xs + ys == ys;
      assert [] + Run(a, ys).calls == Run(a, ys).calls;
    } else {
      var e, tail := xs[0], xs[1..];
      var first := Step(a, e);
      assert xs == [e] + tail;
      assert xs + ys == [e] + (tail + ys);
      RunCons(a, e, tail);
      RunCons(a, e, tail + ys);
      RunAppend(first.actor, tail, ys);
      SeqAssoc(first.calls, Run(first.actor, tail).calls, Run(Run(first.actor, tail).actor, ys).calls);
    }
  }

  lemma RunCons<S, M, E>(a: Actor<S, M, E>, e: Event<M, E>, ys: seq<Event<M, E>>)
    ensures var first := Step(a, e);
            var rest := Run(first.actor, ys);
            Run(a, [e] + ys) == Stepped(rest.actor, first.calls + rest.calls)
  {
    assert ([e] + ys)[0] == e;
    assert ([e] + ys)[1..] == ys;
  }

  lemma SeqAssoc<T>(x: seq<T>, y: seq<T>, z: seq<T>)
    ensures x + (y + z) == (x + y) + z
  {
  }

  /** Once the loop has exited, no later event hands anything to the receiver. */
  lemma NoDeliveryAfterTermination<S, M, E>(a: Actor<S, M, E>, xs: seq<Event<M, E>>, ys: seq<Event<M, E>>)
    requires Run(a, xs).actor.status == Terminated
    ensures Run(a, xs + ys).calls == Run(a, xs).calls
    ensures Run(a, xs + ys).actor.status == Terminated
  {
    RunAppend(a, xs, ys);
    assert Run(a, xs).calls + [] == Run(a, xs).calls;
  }

  lemma {:induction false} SuccessesAppend<S, M, E>(xs: seq<Call<S, M, E>>, ys: seq<Call<S, M, E>>)
    ensures Successes(xs + ys) == Successes(xs) + Successes(ys)
    decreases |xs|
  {
    if |xs| == 0 {
      assert xs + ys == ys;
    } else {
      assert (xs + ys)[0] == xs[0];
      assert (xs + ys)[1..] == xs[1..] + ys;
      SuccessesAppend(xs[1..], ys);
    }
  }

  /** The envelopes a post stamps depend only on the actor's identity and system. */
  lemma {:induction false} PostedEnvelopesOfSame<S, M, E>(a: Actor<S, M, E>, b: Actor<S, M, E>, events: seq<Event<M, E>>)
    requires Same(a, b)
    ensures PostedEnvelopes(a, events) == PostedEnvelopes(b, events)
    decreases |events|
  {
    if |events| > 0 {
      PostedEnvelopesOfSame(a, b, events[1..]);
    }
  }

  lemma SuccessesOfOne<S, M, E>(c: Call<S, M, E>)
    ensures Successes([c]) == if c.envelope.Success? then [c.envelope] else []
  {
    assert [c][1..] == [];
  }

  /** One event neither loses, duplicates nor reorders an envelope: what it hands to the
      receiver followed by what stays queued is what was queued plus what it posted. */
  lemma StepIsFifo<S, M, E>(a: Actor<S, M, E>, event: Event<M, E>)
    requires Wf(a)
    ensures Successes(Step(a, event).calls) + Step(a, event).actor.mailbox
            == a.mailbox + PostedEnvelopes(a, [event])
  {
    assert [event][1..] == [];
    if event.Take? && a.status == Running && |a.mailbox| > 0 {
      TakeIsFifo(a);
    } else if event.Interrupt? && a.status == Running {
      SuccessesOfOne(Step(a, event).calls[0]);
      assert Step(a, event).calls == [Step(a, event).calls[0]];
    }
  }

  lemma TakeIsFifo<S, M, E>(a: Actor<S, M, E>)
    requires Wf(a) && a.status == Running && |a.mailbox| > 0
    ensures Successes(Step(a, Take).calls) + Step(a, Take).actor.mailbox == a.mailbox
  {
    var r := Step(a, Take);
    var head := a.mailbox[0];
    assert head.Success?;
    var first := Call(head, a.receiver(a.state, head));
    SuccessesOfOne(first);
    if a.receiver(a.state, head).Threw? {
      assert r.calls == [first] + [r.calls[1]];
      SuccessesOfOne(r.calls[1]);
      SuccessesAppend([first], [r.calls[1]]);
      assert Successes(r.calls) == [head] + [];
    } else {
      assert r.calls == [first];
    }
    assert [head] + a.mailbox[1..] == a.mailbox;
  }

  /** FIFO delivery: over any run, the `Success` envelopes handed to the receiver, followed by
      the envelopes still queued, are exactly the envelopes that were queued at the start
      followed by those posted during the run, in posting order. */
  lemma {:induction false} RunIsFifo<S, M, E>(a: Actor<S, M, E>, events: seq<Event<M, E>>)
    requires Wf(a)
    ensures Successes(Run(a, events).calls) + Run(a, events).actor.mailbox
            == a.mailbox + PostedEnvelopes(a, events)
    decreases |events|
  {
    if |events| > 0 {
      var first := Step(a, events[0]);
      var rest := Run(first.actor, events[1..]);
      StepIsFifo(a, events[0]);
      RunIsFifo(first.actor, events[1..]);
      PostedEnvelopesOfSame(a, first.actor, events[1..]);
      SuccessesAppend(first.calls, rest.calls);
      PostedEnvelopesCons(a, events);
      ConcatBalance(Successes(first.calls), Successes(rest.calls), a.mailbox, first.actor.mailbox,
                    rest.actor.mailbox, PostedEnvelopes(a, [events[0]]), PostedEnvelopes(a, events[1..]));
    }
  }

  lemma PostedEnvelopesCons<S, M, E>(a: Actor<S, M, E>, events: seq<Event<M, E>>)
    requires |events| > 0
    ensures PostedEnvelopes(a, events) == PostedEnvelopes(a, [events[0]]) + PostedEnvelopes(a, events[1..])
  {
    assert [events[0]][1..] == [];
  }

  /** Sequence bookkeeping behind `RunIsFifo`: two balanced halves make a balanced whole. */
  lemma ConcatBalance<T>(sf: seq<T>, sr: seq<T>, m0: seq<T>, m1: seq<T>, m2: seq<T>, pf: seq<T>, pr: seq<T>)
    requires sf + m1 == m0 + pf
    requires sr + m2 == m1 + pr
    ensures (sf + sr) + m2 == m0 + (pf + pr)
  {
    calc {
      (sf + sr) + m2;
      sf + (sr + m2);
      sf + (m1 + pr);
      (sf + m1) + pr;
      (m0 + pf) + pr;
    }
  }

  /** Consequence of FIFO: message j is handed to the receiver only after messages
      0 .. j-1 were, in that order; what was delivered is a prefix of what was sent. */
  lemma DeliveredInPostingOrder<S, M, E>(a: Actor<S, M, E>, events: seq<Event<M, E>>)
    requires Wf(a)
    ensures var delivered := Successes(Run(a, events).calls);
            delivered <= a.mailbox + PostedEnvelopes(a, events)
  {
    RunIsFifo(a, events);
  }

  /** A normal `Receive` call in front of a well-shaped trace keeps it well shaped, and does
      not change whether the trace ends the loop. */
  lemma PrependContinue<S, M, E>(c: Call<S, M, E>, calls: seq<Call<S, M, E>>, system: SystemRef)
    requires Continues(c) && TraceShape(calls, system)
    ensures TraceShape([c] + calls, system)
    ensures EndsLoop([c] + calls) <==> EndsLoop(calls)
  {
    var all := [c] + calls;
    forall i | 0 <= i < |all| && Final(all[i])
      ensures i == |all| - 1
    {
      assert i > 0 && all[i] == calls[i - 1];
    }
    forall i | 0 <= i < |all| && all[i].envelope.Success? && all[i].outcome.Threw?
      ensures i == |all| - 2 && all[i + 1].envelope == Failure(all[i].outcome.cause, system)
    {
      assert i > 0 && all[i] == calls[i - 1];
    }
  }

  /** The receiver trace of any run from a running actor has the loop's shape: a call that
      ends the loop is the last one, a `Success` call that threw cause C is followed by one
      final `Failure` carrying C, and the actor ends terminated exactly when the trace
      ends with such a final call. */
  lemma {:induction false} RunTraceShape<S, M, E>(a: Actor<S, M, E>, events: seq<Event<M, E>>)
    requires Wf(a) && a.status == Running
    ensures TraceShape(Run(a, events).calls, a.system)
    ensures Run(a, events).actor.status == Terminated <==> EndsLoop(Run(a, events).calls)
    decreases |events|
  {
    if |events| > 0 {
      var first := Step(a, events[0]);
      var rest := Run(first.actor, events[1..]);
      if first.actor.status == Terminated {
        assert first.calls + rest.calls == first.calls;
      } else {
        RunTraceShape(first.actor, events[1..]);
        if first.calls == [] {
          assert first.calls + rest.calls == rest.calls;
        } else {
          PrependContinue(first.calls[0], rest.calls, a.system);
          assert first.calls == [first.calls[0]];
        }
      }
    }
  }

  /** A failure is reported once and ends delivery: the first `Failure` handed to the
      receiver is the last call of the run, and no `Success` follows it. */
  lemma FailureIsLastCall<S, M, E>(a: Actor<S, M, E>, events: seq<Event<M, E>>, i: nat)
    requires Wf(a) && a.status == Running
    requires i < |Run(a, events).calls| && Run(a, events).calls[i].envelope.Failure?
    ensures i == |Run(a, events).calls| - 1
    ensures Run(a, events).actor.status == Terminated
  {
    RunTraceShape(a, events);
    assert Final(Run(a, events).calls[i]);
  }

  /** What follows a take that made the loop exit: the receiver sees nothing more, and
      the envelopes behind the taken one stay queued, with later posts appended behind them. */
  lemma ExitOnTake<S, M, E>(a: Actor<S, M, E>, later: seq<Event<M, E>>)
    requires Wf(a) && a.status == Running && |a.mailbox| > 0
    requires Step(a, Take).actor.status == Terminated
    ensures Run(a, [Take] + later).calls == Step(a, Take).calls
    ensures Run(a, [Take] + later).actor.status == Terminated
    ensures Run(a, [Take] + later).actor.mailbox == a.mailbox[1..] + PostedEnvelopes(a, later)
  {
    var first := Step(a, Take);
    RunAppend(a, [Take], later);
    assert Run(a, [Take]) == Stepped(first.actor, first.calls + []);
    var rest := Run(first.actor, later);
    RunIsFifo(first.actor, later);
    PostedEnvelopesOfSame(a, first.actor, later);
    assert Successes(rest.calls) == [];
    assert [] + rest.actor.mailbox == rest.actor.mailbox;
  }

  /** When the receiver answers the head of the mailbox with `Receive`, the loop goes round
      again: the head is gone, the receiver's new state is kept, and whatever happens
      afterwards is what the later events do to that actor. */
  lemma ReceiveOnHeadContinues<S, M, E>(a: Actor<S, M, E>, later: seq<Event<M, E>>)
    requires a.status == Running && |a.mailbox| > 0
    requires a.receiver(a.state, a.mailbox[0]).Returned? && a.receiver(a.state, a.mailbox[0]).next == Receive
    ensures var outcome := a.receiver(a.state, a.mailbox[0]);
            var rest := Run(a.(mailbox := a.mailbox[1..], state := outcome.state), later);
            Run(a, [Take] + later) == Stepped(rest.actor, [Call(a.mailbox[0], outcome)] + rest.calls)
  {
    RunCons(a, Take, later);
  }

  /** When the receiver answers the head of the mailbox with `Terminate`, that is the only
      envelope it ever sees, whatever happens afterwards; everything queued behind stays queued. */
  lemma TerminateOnHeadStopsDelivery<S, M, E>(a: Actor<S, M, E>, later: seq<Event<M, E>>)
    requires Wf(a) && a.status == Running && |a.mailbox| > 0
    requires a.receiver(a.state, a.mailbox[0]).Returned? && a.receiver(a.state, a.mailbox[0]).next == Terminate
    ensures var r := Run(a, [Take] + later);
            && r.calls == [Call(a.mailbox[0], a.receiver(a.state, a.mailbox[0]))]
            && r.actor.status == Terminated
            && r.actor.mailbox == a.mailbox[1..] + PostedEnvelopes(a, later)
  {
    ExitOnTake(a, later);
  }

  /** When the receiver throws C on the head of the mailbox, whatever happens afterwards it
      sees exactly that head and then one `Failure` carrying C, whatever the failure handler
      does; no `Success` is delivered again and everything queued behind stays queued. */
  lemma ThrowOnHeadStopsDelivery<S, M, E>(a: Actor<S, M, E>, later: seq<Event<M, E>>)
    requires Wf(a) && a.status == Running && |a.mailbox| > 0
    requires a.receiver(a.state, a.mailbox[0]).Threw?
    ensures var r := Run(a, [Take] + later);
            && |r.calls| == 2
            && r.calls[0].envelope == a.mailbox[0]
            && r.calls[1].envelope == Failure(a.receiver(a.state, a.mailbox[0]).cause, a.system)
            && r.actor.status == Terminated
            && r.actor.mailbox == a.mailbox[1..] + PostedEnvelopes(a, later)
  {
    ExitOnTake(a, later);
    assert Step(a, Take).calls[1..] == [Step(a, Take).calls[1]];
  }

  /** The body of `run` without interruption: go round `Iteration` while the actor is running
      and its mailbox is non-empty. It stops parked on an empty mailbox or terminated, and what
      it did is `steps` iterations of the event model. */
  method RunLoop<S, M, E>(a: Actor<S, M, E>) returns (b: Actor<S, M, E>, calls: seq<Call<S, M, E>>, ghost steps: nat)
    requires Wf(a)
    ensures Run(a, Takes(steps)) == Stepped(b, calls)
    ensures b.status == Terminated || |b.mailbox| == 0
    ensures Successes(calls) + b.mailbox == a.mailbox
    ensures a.status == Running ==> TraceShape(calls, a.system) && (b.status == Terminated <==> EndsLoop(calls))
    ensures Replays(a.receiver, a.state, calls) && b.state == StateAfter(a.state, calls)
  {
    b, calls, steps := a, [], 0;
    while b.status == Running && |b.mailbox| > 0
      invariant Run(a, Takes(steps)) == Stepped(b, calls)
      decreases |b.mailbox|
    {
      var next, made := Iteration(b);
      OneMoreTake(a, steps);
      b, calls, steps := next, calls + made, steps + 1;
    }
    OnlyTakes(a, steps);
  }

  /** One more `Take` extends a run of takes by one iteration. */
  lemma OneMoreTake<S, M, E>(a: Actor<S, M, E>, n: nat)
    ensures var r := Run(a, Takes(n));
            var next := Step(r.actor, Take);
            Run(a, Takes(n + 1)) == Stepped(next.actor, r.calls + next.calls)
  {
    var r := Run(a, Takes(n));
    var next := Step(r.actor, Take);
    RunAppend(a, Takes(n), [Take]);
    assert Takes<M, E>(n) + [Take] == Takes(n + 1);
    assert Run(r.actor, [Take]) == Stepped(next.actor, next.calls + []);
  }

  /** A run of takes only, with nobody posting: FIFO delivery of what was queued, the loop's
      trace shape, and the receiver's state threaded through its calls. */
  lemma OnlyTakes<S, M, E>(a: Actor<S, M, E>, n: nat)
    requires Wf(a)
    ensures var r := Run(a, Takes(n));
            && Successes(r.calls) + r.actor.mailbox == a.mailbox
            && (a.status == Running ==> TraceShape(r.calls, a.system) && (r.actor.status == Terminated <==> EndsLoop(r.calls)))
            && Replays(a.receiver, a.state, r.calls) && r.actor.state == StateAfter(a.state, r.calls)
  {
    RunIsFifo(a, Takes(n));
    NoPostsAmongTakes(a, n);
    if a.status == Running {
      RunTraceShape(a, Takes(n));
    }
    RunReplays(a, Takes(n));
  }

  /** One pass of the loop body: take the head, hand it to the receiver and switch on the
      answer; a throw is answered by one `Failure` on the state the receiver left, and ends
      the loop. It is exactly one `Take` of the event model. */
  method Iteration<S, M, E>(b: Actor<S, M, E>) returns (next: Actor<S, M, E>, made: seq<Call<S, M, E>>)
    requires b.status == Running && |b.mailbox| > 0
    ensures Step(b, Take) == Stepped(next, made)
  {
    var envelope := b.mailbox[0];
    var outcome := b.receiver(b.state, envelope);
    match outcome {
      case Returned(Receive, s) =>
        next := b.(mailbox := b.mailbox[1..], state := s);
        made := [Call(envelope, outcome)];
      case Returned(Terminate, s) =>
        next := b.(mailbox := b.mailbox[1..], state := s, status := Terminated);
        made := [Call(envelope, outcome)];
      case Threw(cause, s) =>
        var failure := Failure(cause, b.system);
        var last := b.receiver(s, failure);
        next := b.(mailbox := b.mailbox[1..], state := last.state, status := Terminated);
        made := [Call(envelope, outcome), Call(failure, last)];
    }
  }

  lemma {:induction false} NoPostsAmongTakes<S, M, E>(a: Actor<S, M, E>, n: nat)
    ensures PostedEnvelopes(a, Takes<M, E>(n)) == []
  {
    if n > 0 {
      assert Takes<M, E>(n)[1..] == Takes<M, E>(n - 1);
      NoPostsAmongTakes(a, n - 1);
    }
  }

  /** Replaying two traces one after the other: the second starts from the state the first left. */
  lemma {:induction false} ReplaysAppend<S, M, E>(receiver: Receiver<S, M, E>, s: S, xs: seq<Call<S, M, E>>, ys: seq<Call<S, M, E>>)
    requires Replays(receiver, s, xs) && Replays(receiver, StateAfter(s, xs), ys)
    ensures Replays(receiver, s, xs + ys) && StateAfter(s, xs + ys) == StateAfter(StateAfter(s, xs), ys)
    decreases |xs|
  {
    if |xs| == 0 {
      assert xs + ys == ys;
    } else {
      assert (xs + ys)[0] == xs[0];
      assert (xs + ys)[1..] == xs[1..] + ys;
      ReplaysAppend(receiver, xs[0].outcome.state, xs[1..], ys);
    }
  }

  /** One iteration threads the receiver's state: each call it makes is the receiver's answer
      on the state the previous call left, and the actor keeps the state the last call left. */
  lemma StepReplays<S, M, E>(a: Actor<S, M, E>, event: Event<M, E>)
    ensures var r := Step(a, event);
            Replays(a.receiver, a.state, r.calls) && r.actor.state == StateAfter(a.state, r.calls)
  {
    var r := Step(a, event);
    if event.Take? && a.status == Running && |a.mailbox| > 0 {
      var outcome := a.receiver(a.state, a.mailbox[0]);
      if outcome.Threw? {
        var taken := a.(mailbox := a.mailbox[1..], state := outcome.state);
        var last := Fail(taken, outcome.cause).calls[0];
        assert r.calls == [Call(a.mailbox[0], outcome), last];
        assert r.calls[1..] == [last] && [last][1..] == [];
        assert StateAfter(outcome.state, [last]) == last.outcome.state;
      }
    }
  }

  /** Over any events the receiver's private state is threaded through its calls and nothing
      else touches it: the trace replays through the receiver from the initial state, and the
      actor ends with the state the last call left. */
  lemma {:induction false} RunReplays<S, M, E>(a: Actor<S, M, E>, events: seq<Event<M, E>>)
    ensures var r := Run(a, events);
            Replays(a.receiver, a.state, r.calls) && r.actor.state == StateAfter(a.state, r.calls)
    decreases |events|
  {
    if |events| > 0 {
      var first := Step(a, events[0]);
      StepReplays(a, events[0]);
      RunReplays(first.actor, events[1..]);
      ReplaysAppend(a.receiver, a.state, first.calls, Run(first.actor, events[1..]).calls);
    }
  }
}
