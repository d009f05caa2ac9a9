/**
 One `RunnableActor`: its mailbox, its receiver, and its receive loop, modelled
 sequentially.

 The receiver is an abstract total function from its private state and an
 envelope to an `Outcome`: a normal return carrying the `NextState` signal,
 or a thrown error. Both carry the receiver's state afterwards, so a receiver
 that mutates its captured state and then throws is representable.

 The loop is driven by events. `Take` is one iteration of the `while (true)`
 loop of `run`; on an empty mailbox it changes nothing (the loop is parked in
 `take`). `Interrupt(c)` is `take` throwing `c`. `Posted(m, sender)` is another
 thread's `post` landing in the mailbox between two iterations.
 */
module Actors {
  import opened Envelopes

  /** What one call of `receiver.receive` did. */
  datatype Outcome<S, E> = Returned(next: NextState, state: S) | Threw(cause: E, state: S)

  /** The user-supplied receiver, with its captured state made explicit. */
  type Receiver<!S, !M, !E> = (S, Envelope<M, E>) -> Outcome<S, E>

  /** `Running` covers both "parked in take" and "inside a receive"; `Terminated` is absorbing. */
  datatype Status = Running | Terminated

  datatype Actor<!S, !M, !E> = Actor(id: nat, system: SystemRef, receiver: Receiver<S, M, E>,
                                  state: S, mailbox: seq<Envelope<M, E>>, status: Status)
  {
    /** The actor is its own address. */
    function Ref(): ActorRef { Live(id) }
  }

  /** One invocation of the receiver: the envelope handed to it and what it did. */
  datatype Call<S, M, E> = Call(envelope: Envelope<M, E>, outcome: Outcome<S, E>)

  datatype Event<M, E> = Take | Interrupt(cause: E) | Posted(message: M, sender: ActorRef)

  /** The actor after some events, and the receiver invocations they caused, in order. */
  datatype Stepped<!S, !M, !E> = Stepped(actor: Actor<S, M, E>, calls: seq<Call<S, M, E>>)

  /** `b` is the same actor object as `a`: identity, system and receiver never change. */
  ghost predicate Same<S, M, E>(a: Actor<S, M, E>, b: Actor<S, M, E>)
  {
    b.id == a.id && b.system == a.system && b.receiver == a.receiver
  }

  /** Every queued envelope is a `Success` stamped with this actor's system and address. */
  ghost predicate Wf<S, M, E>(a: Actor<S, M, E>)
  {
    forall i :: 0 <= i < |a.mailbox| ==> Addressed(a, a.mailbox[i])
  }

  ghost predicate Addressed<S, M, E>(a: Actor<S, M, E>, e: Envelope<M, E>)
  {
    e.Success? && e.self == a.Ref() && e.system == a.system
  }

  /** A call after which the loop returns: a `Failure` notification, or a `Success`
      the receiver answered with `Terminate`. */
  ghost predicate Final<S, M, E>(c: Call<S, M, E>)
  {
    c.envelope.Failure? || (c.outcome.Returned? && c.outcome.next == Terminate)
  }

  /** A call after which the loop goes round again. */
  ghost predicate Continues<S, M, E>(c: Call<S, M, E>)
  {
    c.envelope.Success? && c.outcome.Returned? && c.outcome.next == Receive
  }

  /** The shape of a receiver trace: a call that ends the loop is the last call, and a
      `Success` call that threw is followed by exactly one more call, the `Failure`
      notification carrying the same cause. */
  ghost predicate TraceShape<S, M, E>(calls: seq<Call<S, M, E>>, system: SystemRef)
  {
    && (forall i :: 0 <= i < |calls| && Final(calls[i]) ==> i == |calls| - 1)
    && (forall i :: 0 <= i < |calls| && calls[i].envelope.Success? && calls[i].outcome.Threw? ==>
          i == |calls| - 2 && calls[i + 1].envelope == Failure(calls[i].outcome.cause, system))
  }

  /** The trace ends in a call that made the loop return. */
  ghost predicate EndsLoop<S, M, E>(calls: seq<Call<S, M, E>>)
  {
    |calls| > 0 && Final(calls[|calls| - 1])
  }

  /** `RunnableActor.post(message, sender)`: build a `Success` addressed to this actor and
      append it. The actor's liveness is not consulted: a terminated actor still queues. */
  function Post<S, M, E>(a: Actor<S, M, E>, message: Option<M>, sender: Option<ActorRef>): (r: Result<(ActorRef, Actor<S, M, E>)>)
    ensures r.Ok? <==> message.Some? && sender.Some?
    ensures message.None? ==> r == NullPointer("message must not be null")
    ensures message.Some? && sender.None? ==> r == NullPointer("sender must not be null")
    ensures r.Ok? ==> r.value.0 == a.Ref()
    ensures r.Ok? ==> var b := r.value.1;
      && |b.mailbox| == |a.mailbox| + 1
      && b.mailbox[..|a.mailbox|] == a.mailbox
      && b.mailbox[|a.mailbox|] == Success(message.value, a.system, a.Ref(), sender.value)
      && b == a.(mailbox := b.mailbox)
    ensures r.Ok? && Wf(a) ==> Wf(r.value.1)
  {
    match NewSuccess(message, Some(a.system), Some(a.Ref()), sender)
    case Ok(e) => Ok((a.Ref(), a.(mailbox := a.mailbox + [e])))
    case NullPointer(msg) => NullPointer(msg)
  }

  /** `RunnableActor.post(message)`: the same, stamped with the `BlankActor` sink as sender. */
  function PostAnonymous<S, M, E>(a: Actor<S, M, E>, message: Option<M>): (r: Result<(ActorRef, Actor<S, M, E>)>)
    ensures r == Post(a, message, Some(Blank))
  {
    match NewSuccess(message, Some(a.system), Some(a.Ref()), Some(Blank))
    case Ok(e) => Ok((a.Ref(), a.(mailbox := a.mailbox + [e])))
    case NullPointer(msg) => NullPointer(msg)
  }

  /** The catch block of `run`: hand one `Failure` to the receiver, ignore whatever it
      returns or throws, and leave the loop. */
  function Fail<S, M, E>(a: Actor<S, M, E>, cause: E): (r: Stepped<S, M, E>)
    // exactly one call: the receiver's answer, on its current state, to a Failure carrying the cause
    ensures r.calls == [Call(Failure(cause, a.system), a.receiver(a.state, Failure(cause, a.system)))]
    // whatever that answer is, the loop ends; only the receiver's state moves on
    ensures r.actor.status == Terminated
    ensures r.actor == a.(state := r.calls[0].outcome.state, status := Terminated)
  {
    var failure := Failure(cause, a.system);
    var outcome := a.receiver(a.state, failure);
    Stepped(a.(state := outcome.state, status := Terminated), [Call(failure, outcome)])
  }

  /** One event applied to the actor. */
  function Step<S, M, E>(a: Actor<S, M, E>, event: Event<M, E>): (r: Stepped<S, M, E>)
    ensures Same(a, r.actor)
    ensures Wf(a) ==> Wf(r.actor)
    // terminated is absorbing: nothing is handed to the receiver any more
    ensures a.status == Terminated ==> r.actor.status == Terminated && r.calls == []
    // a take removes exactly the head of the mailbox and hands it to the receiver first
    ensures event.Take? && a.status == Running && |a.mailbox| > 0 ==>
              r.actor.mailbox == a.mailbox[1..] && |r.calls| > 0 && r.calls[0].envelope == a.mailbox[0]
    // ... on the receiver's current state, and the loop acts on the answer: Receive goes round
    // again with the new state, Terminate leaves the loop, a throw goes to the catch block
    ensures event.Take? && a.status == Running && |a.mailbox| > 0 ==>
              var head := a.mailbox[0];
              var outcome := a.receiver(a.state, head);
              var taken := a.(mailbox := a.mailbox[1..], state := outcome.state);
              && r.calls[0] == Call(head, outcome)
              && (outcome == Returned(Receive, outcome.state) ==> r == Stepped(taken, [Call(head, outcome)]))
              && (outcome == Returned(Terminate, outcome.state) ==>
                    r == Stepped(taken.(status := Terminated), [Call(head, outcome)]))
              && (outcome.Threw? ==>
                    r.actor == Fail(taken, outcome.cause).actor
                    && r.calls == [Call(head, outcome)] + Fail(taken, outcome.cause).calls)
    // a post from another thread appends one envelope and calls nothing
    ensures event.Posted? ==>
              r == Stepped(a.(mailbox := a.mailbox + [Success(event.message, a.system, a.Ref(), event.sender)]), [])
    // an empty mailbox parks the loop
    ensures event.Take? && |a.mailbox| == 0 ==> r == Stepped(a, [])
    // an interrupted take is reported as one Failure carrying its cause, then the loop ends
    ensures event.Interrupt? && a.status == Running ==>
              r == Fail(a, event.cause) && r.actor.mailbox == a.mailbox
              && |r.calls| == 1 && r.calls[0].envelope == Failure(event.cause, a.system)
    // a loop still running went round at most once, normally
    ensures Wf(a) && a.status == Running && r.actor.status == Running ==>
              r.calls == [] || (|r.calls| == 1 && Continues(r.calls[0]))
    // a loop that stopped here did so through a final call, with the trace in shape
    ensures Wf(a) && a.status == Running ==>
              TraceShape(r.calls, a.system) && (r.actor.status == Terminated <==> EndsLoop(r.calls))
  {
    match event
    case Posted(m, s) =>
      Stepped(Post(a, Some(m), Some(s)).value.1, [])
    case Interrupt(c) =>
      if a.status == Terminated then Stepped(a, []) else Fail(a, c)
    case Take =>
      if a.status == Terminated || |a.mailbox| == 0 then Stepped(a, [])
      else
        var envelope := a.mailbox[0];
        var taken := a.(mailbox := a.mailbox[1..]);
        var outcome := a.receiver(a.state, envelope);
        match outcome
        case Returned(Receive, s) =>
          Stepped(taken.(state := s), [Call(envelope, outcome)])
        case Returned(Terminate, s) =>
          Stepped(taken.(state := s, status := Terminated), [Call(envelope, outcome)])
        case Threw(c, s) =>
          var failed := Fail(taken.(state := s), c);
          Stepped(failed.actor, [Call(envelope, outcome)] + failed.calls)
  }

  /** A sequence of events applied in order; the calls are concatenated. */
  function Run<S, M, E>(a: Actor<S, M, E>, events: seq<Event<M, E>>): (r: Stepped<S, M, E>)
    ensures Same(a, r.actor)
    ensures Wf(a) ==> Wf(r.actor)
    ensures a.status == Terminated ==> r.actor.status == Terminated && r.calls == []
    decreases |events|
  {
    if |events| == 0 then Stepped(a, [])
    else
      var first := Step(a, events[0]);
      var rest := Run(first.actor, events[1..]);
      Stepped(rest.actor, first.calls + rest.calls)
  }

  /** `n` iterations of the loop with no interruption and no concurrent post. */
  function Takes<M, E>(n: nat): (r: seq<Event<M, E>>)
    ensures |r| == n && forall i :: 0 <= i < n ==> r[i] == Take
  {
    seq(n, _ => Take)
  }

  /** The calls are exactly the receiver's answers when its private state is threaded
      through them, starting from `s`: each call sees the state the previous one left. */
  ghost predicate Replays<S, M, E>(receiver: Receiver<S, M, E>, s: S, calls: seq<Call<S, M, E>>)
    decreases |calls|
  {
    |calls| == 0
    || (calls[0].outcome == receiver(s, calls[0].envelope) && Replays(receiver, calls[0].outcome.state, calls[1..]))
  }

  /** The receiver's state after the calls: what the last call left, or `s` if there were none. */
  function StateAfter<S, M, E>(s: S, calls: seq<Call<S, M, E>>): S
    decreases |calls|
  {
    if |calls| == 0 then s else StateAfter(calls[0].outcome.state, calls[1..])
  }

  /** The `Success` envelopes among the calls, in the order they were handed over. */
  function Successes<S, M, E>(calls: seq<Call<S, M, E>>): (r: seq<Envelope<M, E>>)
    decreases |calls|
  {
    if |calls| == 0 then []
    else (if calls[0].envelope.Success? then [calls[0].envelope] else []) + Successes(calls[1..])
  }

  /** The envelopes the `Posted` events among `events` append to `a`'s mailbox, in order. */
  function PostedEnvelopes<S, M, E>(a: Actor<S, M, E>, events: seq<Event<M, E>>): (r: seq<Envelope<M, E>>)
    decreases |events|
  {
    if |events| == 0 then []
    else
      (if events[0].Posted? then [Success(events[0].message, a.system, a.Ref(), events[0].sender)] else [])
      + PostedEnvelopes(a, events[1..])
  }
}
