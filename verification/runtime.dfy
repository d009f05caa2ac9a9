/**
 The `System` as a registry of actors, and posting through an `ActorRef`.

 `spawn` is modelled as "register a fresh actor with an empty mailbox"; the
 executor it hands the actor to is not modelled. Actor identities are drawn
 from one system's counter, so `Live(id)` names an actor only within that
 system; `Knows` states that an address given to a system names one of its
 own actors, which is all that posting through it relies on.
 */
module Runtime {
  import opened Envelopes
  import opened Actors

  datatype System<!S, !M, !E> = System(ref: SystemRef, actors: map<nat, Actor<S, M, E>>, nextId: nat)

  /** Each registered actor sits under its own identity, below the next fresh identity,
      belongs to this system, and holds only envelopes addressed to it. */
  ghost predicate Valid<S, M, E>(sys: System<S, M, E>)
  {
    forall id :: id in sys.actors ==>
      id < sys.nextId && sys.actors[id].id == id && sys.actors[id].system == sys.ref && Wf(sys.actors[id])
  }

  /** The address is the sink, or names an actor of this system. */
  ghost predicate Knows<S, M, E>(sys: System<S, M, E>, target: ActorRef)
  {
    target.Live? ==> target.id in sys.actors
  }

  /** `new System()`: no actors yet. */
  function NewSystem<S, M, E>(ref: SystemRef): (sys: System<S, M, E>)
    ensures Valid(sys) && sys.ref == ref && sys.actors == map[]
  {
    System(ref, map[], 0)
  }

  /** `System.spawn(receiver)`: a new actor, running, with an empty mailbox, under a fresh
      identity; its address is returned and no other actor changes. */
  function Spawn<S, M, E>(sys: System<S, M, E>, receiver: Receiver<S, M, E>, initial: S): (r: (ActorRef, System<S, M, E>))
    requires Valid(sys)
    ensures Valid(r.1) && r.1.ref == sys.ref
    ensures r.0.Live? && r.0.id !in sys.actors && r.1.actors.Keys == sys.actors.Keys + {r.0.id}
    ensures var a := r.1.actors[r.0.id];
            a.Ref() == r.0 && a.system == sys.ref && a.receiver == receiver && a.state == initial
            && a.mailbox == [] && a.status == Running
    ensures forall id :: id in sys.actors ==> r.1.actors[id] == sys.actors[id]
  {
    var id := sys.nextId;
    var actor := Actor(id, sys.ref, receiver, initial, [], Running);
    (Live(id), sys.(actors := sys.actors[id := actor], nextId := id + 1))
  }

  /** `target.post(message, sender)` through an address. The sink ignores everything, even
      absent arguments; a live address posts to its actor, which fails only on an absent
      message or sender. Either way the target itself is returned. */
  function Send<S, M, E>(sys: System<S, M, E>, target: ActorRef, message: Option<M>, sender: Option<ActorRef>): (r: Result<(ActorRef, System<S, M, E>)>)
    requires Valid(sys) && Knows(sys, target)
    ensures target.Blank? ==> r == Ok((Blank, sys))
    ensures target.Live? ==> (r.Ok? <==> message.Some? && sender.Some?)
    ensures r.Ok? ==> r.value.0 == target && Valid(r.value.1) && Knows(r.value.1, target)
    // nothing but the target's mailbox changes, and that by one appended Success
    ensures r.Ok? && target.Live? ==>
              var a := sys.actors[target.id];
              r.value.1 == sys.(actors := sys.actors[target.id := a.(mailbox := a.mailbox + [Success(message.value, sys.ref, target, sender.value)])])
  {
    match target
    case Blank => Ok((Blank, sys))
    case Live(id) =>
      match Post(sys.actors[id], message, sender)
      case Ok((ref, actor)) => Ok((ref, sys.(actors := sys.actors[id := actor])))
      case NullPointer(msg) => NullPointer(msg)
  }

  /** `target.post(message)`: the sink stands in as sender. */
  function SendAnonymous<S, M, E>(sys: System<S, M, E>, target: ActorRef, message: Option<M>): (r: Result<(ActorRef, System<S, M, E>)>)
    requires Valid(sys) && Knows(sys, target)
    ensures r == Send(sys, target, message, Some(Blank))
  {
    match target
    case Blank => Ok((Blank, sys))
    case Live(id) =>
      match PostAnonymous(sys.actors[id], message)
      case Ok((ref, actor)) => Ok((ref, sys.(actors := sys.actors[id := actor])))
      case NullPointer(msg) => NullPointer(msg)
  }

  /** A sequence of `post` calls on one address, from one thread; the first exception stops it. */
  function SendAll<S, M, E>(sys: System<S, M, E>, target: ActorRef, posts: seq<(Option<M>, Option<ActorRef>)>): (r: Result<(ActorRef, System<S, M, E>)>)
    requires Valid(sys) && Knows(sys, target)
    decreases |posts|
  {
    if |posts| == 0 then Ok((target, sys))
    else
      match Send(sys, target, posts[0].0, posts[0].1)
      case NullPointer(msg) => NullPointer(msg)
      case Ok((_, next)) => SendAll(next, target, posts[1..])
  }

  /** The sink is inert: posting any sequence of messages to it, with or without senders,
      present or absent, returns the sink and leaves the whole system as it was. */
  lemma {:induction false} BlankIsInert<S, M, E>(sys: System<S, M, E>, posts: seq<(Option<M>, Option<ActorRef>)>)
    requires Valid(sys)
    ensures SendAll(sys, Blank, posts) == Ok((Blank, sys))
    decreases |posts|
  {
    if |posts| > 0 {
      BlankIsInert(sys, posts[1..]);
    }
  }

  /** The same sender on every post, every message present. */
  function FromSender<M>(messages: seq<M>, sender: ActorRef): (r: seq<(Option<M>, Option<ActorRef>)>)
    decreases |messages|
  {
    if |messages| == 0 then [] else [(Some(messages[0]), Some(sender))] + FromSender(messages[1..], sender)
  }

  /** The envelopes those posts stamp for the actor `id` of system `ref`. */
  function Stamped<M, E>(messages: seq<M>, ref: SystemRef, id: nat, sender: ActorRef): (r: seq<Envelope<M, E>>)
    decreases |messages|
  {
    if |messages| == 0 then [] else [Success(messages[0], ref, Live(id), sender)] + Stamped(messages[1..], ref, id, sender)
  }

  /** Posting a sequence to a live address appends one `Success` per post, in order, stamped
      with that address as `self`, and changes nothing else in the system. */
  lemma {:induction false} SendAllAppends<S, M, E>(sys: System<S, M, E>, id: nat, messages: seq<M>, sender: ActorRef)
    requires Valid(sys) && id in sys.actors
    ensures var a := sys.actors[id];
            SendAll(sys, Live(id), FromSender(messages, sender))
            == Ok((Live(id), sys.(actors := sys.actors[id := a.(mailbox := a.mailbox + Stamped(messages, sys.ref, id, sender))])))
    decreases |messages|
  {
    var a := sys.actors[id];
    if |messages| == 0 {
      assert a.mailbox + [] == a.mailbox;
      assert sys.actors[id := a] == sys.actors;
    } else {
      var head := Success(messages[0], sys.ref, Live(id), sender);
      var tail := Stamped<M, E>(messages[1..], sys.ref, id, sender);
      var a1 := a.(mailbox := a.mailbox + [head]);
      var next := sys.(actors := sys.actors[id := a1]);
      var done := a1.(mailbox := a1.mailbox + tail);
      assert SendAll(sys, Live(id), FromSender(messages, sender))
          == SendAll(next, Live(id), FromSender(messages[1..], sender)) by {
        SendAllUnfold(sys, id, messages, sender);
      }
      assert SendAll(next, Live(id), FromSender(messages[1..], sender))
          == Ok((Live(id), next.(actors := next.actors[id := done]))) by {
        SendAllUnfold(sys, id, messages, sender);
        assert next.actors[id] == a1;
        SendAllAppends(next, id, messages[1..], sender);
      }
      assert done == a.(mailbox := a.mailbox + Stamped(messages, sys.ref, id, sender)) by {
        assert Stamped<M, E>(messages, sys.ref, id, sender) == [head] + tail;
        assert (a.mailbox + [head]) + tail == a.mailbox + ([head] + tail);
      }
      assert next.actors[id := done] == sys.actors[id := done];
    }
  }

  /** One post peeled off the front of `SendAllAppends`. */
  lemma SendAllUnfold<S, M, E>(sys: System<S, M, E>, id: nat, messages: seq<M>, sender: ActorRef)
    requires Valid(sys) && id in sys.actors && |messages| > 0
    ensures var a := sys.actors[id];
            var next := sys.(actors := sys.actors[id := a.(mailbox := a.mailbox + [Success(messages[0], sys.ref, Live(id), sender)])]);
            Valid(next) && SendAll(sys, Live(id), FromSender(messages, sender)) == SendAll(next, Live(id), FromSender(messages[1..], sender))
  {
    var posts := FromSender(messages, sender);
    assert posts[0] == (Some(messages[0]), Some(sender)) && posts[1..] == FromSender(messages[1..], sender);
  }
}
