/** Shared vocabulary for phases that talk to remote stores. */
module Outcomes {

  datatype Option<+T> = None | Some(value: T)

  /** What the environment makes of one remote call: it takes effect and answers,
      it is refused without effect, or the run stops before it takes effect. */
  datatype Fate = Served | Refused | Cut

  /** Where an error comes from: the call did not get through, the service cannot do
      that in the state it is in, or the phase itself declines to go on. */
  datatype Cause = Transport | Rejected | Declined

  /** How a run, or one call of it, ends. An error may name a token accessor. */
  datatype Result<+A> = Done(value: A) | Failed(named: Option<string>, cause: Cause) | Stopped {

    predicate IsFailure() {
      !Done?
    }

    function PropagateFailure<B>(): (r: Result<B>)
      requires IsFailure()
      ensures r.IsFailure()
    {
      match this
      case Failed(named, cause) => Failed(named, cause)
      case Stopped => Stopped
    }

    function Extract(): A
      requires !IsFailure()
    {
      value
    }
  }

  /** The world after a run, or after one call of it, and how that ended. */
  datatype Run<+W, +A> = Run(world: W, result: Result<A>) {

    predicate IsFailure() {
      result.IsFailure()
    }

    function PropagateFailure<B>(): Run<W, B>
      requires IsFailure()
    {
      Run(world, result.PropagateFailure())
    }

    function Extract(): (W, A)
      requires !IsFailure()
    {
      (world, result.value)
    }
  }

  /** A call that takes effect, is refused without effect, or is never made. */
  function Reply<W, A>(fate: Fate, before: W, after: W, value: A): Run<W, A> {
    match fate
    case Served => Run(after, Done(value))
    case Refused => Run(before, Failed(None, Transport))
    case Cut => Run(before, Stopped)
  }

  /** What a call that has nothing to say answers. */
  method Answer(fate: Fate) returns (r: Result<()>)
    ensures fate.Served? ==> r == Done(())
    ensures fate.Refused? ==> r == Failed(None, Transport)
    ensures fate.Cut? ==> r == Stopped
  {
    match fate
    case Served => r := Done(());
    case Refused => r := Failed(None, Transport);
    case Cut => r := Stopped;
  }

  /** A call the service can only serve in some states. */
  function ReplyIf<W, A>(servable: bool, fate: Fate, before: W, after: W, value: A): Run<W, A> {
    if fate.Served? && !servable then Run(before, Failed(None, Rejected))
    else Reply(fate, before, after, value)
  }

  /** An error of the environment's making, or a stop. */
  predicate Interrupted<A>(result: Result<A>) {
    result.Stopped? || (result.Failed? && result.cause.Transport?)
  }
}
