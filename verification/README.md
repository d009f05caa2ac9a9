# Per-actor mailbox and receive loop of a virtual-thread actor runtime

This project models the core of a minimal Java actor runtime (`Actor.java`) in Dafny.
Each actor owns a private FIFO mailbox of envelopes and a receiver. The actor runs a loop:
it takes the head of its mailbox, hands it to the receiver, and keeps going or stops
according to the `NextState` the receiver returns. When the receiver throws, the loop
hands one best-effort `Failure` envelope to the receiver and then stops, whatever that
last call does. Addresses (`ActorRef`) are either the inert `BlankActor` sink or a
live actor. Posting to a live actor appends a `Success` envelope to its mailbox.

The model is sequential and functional:

- `envelopes.dfy` (module `Envelopes`) holds the value types: `NextState`, `ActorRef`,
  `Envelope` with its two record variants, and the null-checking record constructors.
  Java references that may be null are `Option` inputs. A `NullPointerException` is a
  `NullPointer` result that carries the exception's message.
- `actors.dfy` (module `Actors`) holds one `RunnableActor`. The receiver is an abstract
  total function `(state, envelope) -> Outcome`. An outcome is a normal return with a
  `NextState`, or a thrown cause. Either way it carries the receiver's private state
  afterwards. The loop is driven by events:
  - `Take` is one iteration of `while (true)`. On an empty mailbox it changes nothing,
    because the loop is parked in `take`.
  - `Interrupt(c)` is `take` throwing `c`.
  - `Posted(m, sender)` is a concurrent `post` landing between two iterations.

  `Run` folds the events and records every receiver invocation as a `Call`.
- `traces.dfy` (module `ActorTraces`) proves properties of whole runs: FIFO delivery,
  termination is final, and the trace shape around failures. It also holds `RunLoop`,
  the imperative loop of `run` without interruption.
- `runtime.dfy` (module `Runtime`) models the `System` as a registry of actors. `spawn`
  registers a fresh running actor with an empty mailbox. `post` goes through an address.

Message payloads (`M`), error causes (`E`) and receiver state (`S`) are type parameters.
The runtime never looks inside them.

Posting to a live actor is not total. `RunnableActor.post` builds an `Envelope.Success`
(Actor.java:69, 74), and that record's constructor throws `NullPointerException` on a null
message or sender (Actor.java:23, 26). So posting to a live actor fails on those inputs,
and the mailbox stays as it was. `BlankActor.post` never looks at its arguments, so it
never fails (Actor.java:48-55).

## Model

| member | source | states |
|---|---|---|
| Envelopes.NewSuccess | java21-virtual-thread-actor/src/main/java/com/github/jurisliepins/Actor.java:21-28 | a `Success` is built exactly when message, system, self and sender are all present, and then carries them unchanged; otherwise the first missing one, in that order, names the `NullPointerException` |
| Envelopes.NewFailure | java21-virtual-thread-actor/src/main/java/com/github/jurisliepins/Actor.java:30-35 | a `Failure` is built exactly when cause and system are both present; otherwise the first missing one names the exception |
| Envelopes.ConstructFromComponents | java21-virtual-thread-actor/src/main/java/com/github/jurisliepins/Actor.java:20-36 | rebuilding any envelope from its record components succeeds and yields the same envelope |
| Actors.Post | java21-virtual-thread-actor/src/main/java/com/github/jurisliepins/Actor.java:68-71 | `post(message, sender)` succeeds exactly when both are present; it returns the actor itself and appends exactly one `Success` whose self is the actor and whose sender is the given one; earlier entries and all other fields are unchanged; the mailbox invariant is kept |
| Actors.PostAnonymous | java21-virtual-thread-actor/src/main/java/com/github/jurisliepins/Actor.java:73-76 | `post(message)` is exactly `post(message, BlankActor.INSTANCE)` |
| Actors.Fail | java21-virtual-thread-actor/src/main/java/com/github/jurisliepins/Actor.java:97-104 | the catch block makes exactly one receiver call: the receiver's answer, on its current state, to a `Failure` carrying the cause and the actor's system; the actor is then terminated whatever that call returns or throws, keeps the state that call left, and its mailbox is untouched |
| Actors.Step | java21-virtual-thread-actor/src/main/java/com/github/jurisliepins/Actor.java:89-104 | one loop iteration: a terminated actor hands nothing to the receiver; a take removes exactly the head and hands it to the receiver on its current state; `Receive` keeps the actor running with the receiver's new state, `Terminate` ends the loop with it, a throw is followed by the catch block on that new state; an empty mailbox parks the loop; an interrupted take runs the catch block; a post appends one `Success`; a still-running loop made at most one normal `Receive` call; stopping coincides with a final call |
| Actors.Run | java21-virtual-thread-actor/src/main/java/com/github/jurisliepins/Actor.java:78-106 | over any events the actor keeps its identity, system and receiver and its mailbox invariant, and a terminated actor stays terminated and never calls the receiver again |
| ActorTraces.RunAppend | java21-virtual-thread-actor/src/main/java/com/github/jurisliepins/Actor.java:79-105 | running two event sequences one after another equals running their concatenation, with the receiver calls concatenated |
| ActorTraces.NoDeliveryAfterTermination | java21-virtual-thread-actor/src/main/java/com/github/jurisliepins/Actor.java:94-95 | once the loop has returned, no later events add a receiver call, and the actor stays terminated |
| ActorTraces.RunIsFifo | java21-virtual-thread-actor/src/main/java/com/github/jurisliepins/Actor.java:68-90 | the `Success` envelopes handed to the receiver, followed by those still queued, equal the initially queued envelopes followed by those posted during the run: nothing lost, duplicated or reordered |
| ActorTraces.DeliveredInPostingOrder | java21-virtual-thread-actor/src/main/java/com/github/jurisliepins/Actor.java:89-90 | the messages the receiver sees are a prefix of the messages posted, in posting order |
| ActorTraces.RunTraceShape | java21-virtual-thread-actor/src/main/java/com/github/jurisliepins/Actor.java:89-103 | in any run of a running actor, a call that ends the loop is the last call; a `Success` that threw C is followed by exactly one more call, a `Failure` carrying C; the actor ends terminated exactly when the trace ends with such a final call |
| ActorTraces.FailureIsLastCall | java21-virtual-thread-actor/src/main/java/com/github/jurisliepins/Actor.java:97-103 | a `Failure` handed to the receiver is its last call, and the actor is terminated afterwards |
| ActorTraces.ExitOnTake | java21-virtual-thread-actor/src/main/java/com/github/jurisliepins/Actor.java:94-103 | after a take that ended the loop, no later event calls the receiver again; the envelopes behind the taken one stay queued, with later posts appended |
| ActorTraces.ReceiveOnHeadContinues | java21-virtual-thread-actor/src/main/java/com/github/jurisliepins/Actor.java:89-93 | if the receiver answers the head with `Receive`, the loop goes round again on the rest of the mailbox with the receiver's new state; the run is that call followed by whatever the later events do to that actor |
| ActorTraces.TerminateOnHeadStopsDelivery | java21-virtual-thread-actor/src/main/java/com/github/jurisliepins/Actor.java:91-96 | if the receiver answers the head with `Terminate`, that head is the only envelope it ever sees, whatever happens afterwards; everything queued behind it is never delivered |
| ActorTraces.ThrowOnHeadStopsDelivery | java21-virtual-thread-actor/src/main/java/com/github/jurisliepins/Actor.java:97-103 | if the receiver throws C on the head, it then sees exactly one `Failure` carrying C and nothing else, whatever happens afterwards; the messages queued behind are never delivered |
| ActorTraces.Iteration | java21-virtual-thread-actor/src/main/java/com/github/jurisliepins/Actor.java:89-103 | one pass of the loop body, with take, receive, switch and catch block written out as statements, does exactly what one `Take` of the event model does |
| ActorTraces.RunLoop | java21-virtual-thread-actor/src/main/java/com/github/jurisliepins/Actor.java:78-106 | the imperative loop stops only when it is parked on an empty mailbox or has terminated; it equals some number of `Take` iterations of the event model; it delivers in FIFO order, its trace has the loop's shape, and it threads the receiver's state through its calls |
| ActorTraces.RunReplays | java21-virtual-thread-actor/src/main/java/com/github/jurisliepins/Actor.java:89-103 | over any events, every receiver call is the receiver's answer on the state the previous call left, starting from the actor's initial state, and the actor ends with the state the last call left: nothing but the receiver changes its state |
| Runtime.NewSystem | java21-virtual-thread-actor/src/main/java/com/github/jurisliepins/Actor.java:109-110 | a new system has no actors and satisfies the registry invariant |
| Runtime.Spawn | java21-virtual-thread-actor/src/main/java/com/github/jurisliepins/Actor.java:112-116 | `spawn` returns the live address of a fresh actor that is running, has an empty mailbox, belongs to this system and runs the given receiver; no other actor changes |
| Runtime.Send | java21-virtual-thread-actor/src/main/java/com/github/jurisliepins/Actor.java:38-42 | `post` through an address returns that address; the sink changes nothing and never fails; a live address fails exactly on an absent message or sender, and otherwise appends one `Success` to its own actor only |
| Runtime.SendAnonymous | java21-virtual-thread-actor/src/main/java/com/github/jurisliepins/Actor.java:52-76 | the one-argument `post` through either kind of address is the two-argument `post` with the sink as sender |
| Runtime.BlankIsInert | java21-virtual-thread-actor/src/main/java/com/github/jurisliepins/Actor.java:44-56 | posting any sequence of messages to the sink, null or not, always returns the sink and leaves the whole system unchanged |
| Runtime.SendAllAppends | java21-virtual-thread-actor/src/main/java/com/github/jurisliepins/Actor.java:68-71 | posts of present messages from one sender to one live address append one `Success` per post, in posting order, and no other actor changes |

## Left out

- `System.shutdown` (lines 118-127): it rests on the executor's wall-clock `awaitTermination` (1000 ms) and forced `shutdownNow`. Those are timing and cancellation concerns with no sequential contract. Forced cancellation is not modelled.
- The virtual-thread executor (lines 110 and 114): `spawn` only registers the actor. Scheduling is not modelled.
- Blocking in `LinkedBlockingQueue.take`: an iteration on an empty mailbox is a no-op, and the loop resumes at the next `Take`.
- Concurrency between posting threads: concurrent posts appear as `Posted` events in one interleaved sequence. Whatever order the queue's lock picks is one such sequence.
- `InterruptedException` from `take`: it is one abstract `Interrupt(cause)` event. Interrupting a terminated actor has no effect, because its loop has already returned.
- Receiver side effects: the receiver is a pure function of its state and the envelope. Posting to other actors and printing, as the demo receivers do, are not modelled, so the two-actor echo exchange of the demo is not modelled either.
- A receiver that returns `null`: the `switch` on it throws `NullPointerException`, which the same catch block handles. The model's `NextState` is never absent, and that case is one more `Threw` outcome.
- Kinds of `Throwable`: `catch (Throwable)` catches every error alike, so causes are one abstract type `E`.
- Actors.Post: an actor built directly through the public `RunnableActor` constructor (lines 58 and 63) with a null system is not modelled. Every post with a present message would throw `NullPointerException` ("system must not be null"), while a null message still reports "message must not be null" first (lines 23-24). The `Failure` of its catch block would fail on the null system too, and that would be ignored. In the model an actor's system is always present, as it is for every actor `spawn` creates (line 113).
- Actors.Post: the mailbox is unbounded. A `LinkedBlockingQueue` built without a capacity holds at most `Integer.MAX_VALUE` (2147483647) envelopes, and `add` on a full queue throws `IllegalStateException("Queue full")`. That bound and that exception are not modelled, so `Actors.Post`, `Runtime.Send`, `Runtime.SendAllAppends` and the `Posted` event never fail on a full mailbox.
- Runtime.Spawn: a null receiver is not modelled, because the receiver is a total function. In the source `spawn(null)` is accepted. Once an envelope arrives, `mailbox.take()` returns it and `receiver.receive` throws `NullPointerException` (line 90). The catch block's call throws again and that is ignored, and the actor terminates without any receiver call having completed. An interrupt of the parked take ends the same way.
- Addresses across systems: an actor identity is unique only within the system that spawned it, while Java references are unique across the process. Posting between actors of different systems happens inside receivers, whose side effects are not modelled.
- `App.java`: console pacing and demo business logic.
