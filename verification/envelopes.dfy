/**
 The value types of the actor runtime: addresses, the loop-control signal and
 the two kinds of envelope handed to a receiver.

 Java references that may be null are modelled as `Option` inputs to the
 envelope constructors; a `NullPointerException` raised by
 `Objects.requireNonNull` is modelled as a `NullPointer` result carrying the
 exception's message.
 */
module Envelopes {

  datatype Option<+T> = None | Some(value: T)

  /** Either a value, or the `NullPointerException` a constructor raised. */
  datatype Result<+T> = Ok(value: T) | NullPointer(message: string)

  /** The signal a receiver returns: keep looping, or leave the loop. */
  datatype NextState = Receive | Terminate

  /** Identity of a `System` instance; envelopes carry it as a back-reference. */
  datatype SystemRef = SystemRef(id: nat)

  /** An address: the inert `BlankActor` sink, or the live handle of the actor with the given
      identity. Identities are unique within one system only, unlike Java references. */
  datatype ActorRef = Blank | Live(id: nat)

  /** A unit of delivery, generic in the payload type `M` and the error type `E`. */
  datatype Envelope<+M, +E> =
    | Success(message: M, system: SystemRef, self: ActorRef, sender: ActorRef)
    | Failure(cause: E, system: SystemRef)

  /** The canonical constructor of `Envelope.Success`: every field must be present,
      and the first missing one (in declaration order) names the exception. */
  function NewSuccess<M, E>(message: Option<M>, system: Option<SystemRef>,
                            self: Option<ActorRef>, sender: Option<ActorRef>): (r: Result<Envelope<M, E>>)
    ensures r.Ok? <==> message.Some? && system.Some? && self.Some? && sender.Some?
    ensures r.Ok? ==> r.value.Success? && r.value.message == message.value && r.value.system == system.value
                      && r.value.self == self.value && r.value.sender == sender.value
    ensures message.None? ==> r == NullPointer("message must not be null")
    ensures message.Some? && system.None? ==> r == NullPointer("system must not be null")
    ensures message.Some? && system.Some? && self.None? ==> r == NullPointer("self must not be null")
    ensures message.Some? && system.Some? && self.Some? && sender.None? ==> r == NullPointer("sender must not be null")
  {
    if message.None? then NullPointer("message must not be null")
    else if system.None? then NullPointer("system must not be null")
    else if self.None? then NullPointer("self must not be null")
    else if sender.None? then NullPointer("sender must not be null")
    else Ok(Success(message.value, system.value, self.value, sender.value))
  }

  /** The canonical constructor of `Envelope.Failure`: cause first, then system. */
  function NewFailure<M, E>(cause: Option<E>, system: Option<SystemRef>): (r: Result<Envelope<M, E>>)
    ensures r.Ok? <==> cause.Some? && system.Some?
    ensures r.Ok? ==> r.value.Failure? && r.value.cause == cause.value && r.value.system == system.value
    ensures cause.None? ==> r == NullPointer("cause must not be null")
    ensures cause.Some? && system.None? ==> r == NullPointer("system must not be null")
  {
    if cause.None? then NullPointer("cause must not be null")
    else if system.None? then NullPointer("system must not be null")
    else Ok(Failure(cause.value, system.value))
  }

  /** The record components of an envelope, each as a present reference:
      the accessor side of the record, partner of the two constructors. */
  function Components<M, E>(e: Envelope<M, E>): (r: (Option<M>, Option<E>, Option<SystemRef>, Option<ActorRef>, Option<ActorRef>))
  {
    match e
    case Success(m, sys, self, sender) => (Some(m), None, Some(sys), Some(self), Some(sender))
    case Failure(c, sys) => (None, Some(c), Some(sys), None, None)
  }

  /** Rebuilding any envelope from its components succeeds and yields the same envelope. */
  lemma ConstructFromComponents<M, E>(e: Envelope<M, E>)
    ensures var (m, c, sys, self, sender) := Components(e);
            (e.Success? ==> NewSuccess(m, sys, self, sender) == Ok(e))
            && (e.Failure? ==> NewFailure(c, sys) == Ok(e))
  {
  }
}
