/** The pieces of the .NET runtime that the two feature classes lean on:
    null references, exceptions, the outcome of a call that may throw,
    the process-wide record of what a run makes observable (debug output
    and event-handler calls), and the invocation list behind a C# event. */
module Runtime {

  /** A reference that may be null: `None` is the null reference. */
  datatype Option<+T> = None | Some(value: T) {
    /** The `??` operator: the value, or `default` when this is null. */
    function GetOr(default: T): T {
      match this
      case Some(v) => v
      case None => default
    }
  }

  /** The exceptions the model can raise. `Exception(None)` is what the
      parameterless `new Exception()` builds; `ArgumentException` is what
      `Dictionary.Add` throws for a key that is already present. */
  datatype Exception =
    | Exception(message: Option<string>)
    | ArgumentException(detail: string)

  /** How a call ends: it returns normally, or it throws `exception`. */
  datatype Outcome = Ok | Fail(exception: Exception)

  /** A subscribed event handler, identified by the delegate it stands for. */
  type Handler = nat

  /** One observable step of a run. */
  datatype Effect =
    | LoggedException(exception: Exception)  // Debug.WriteLine(exception.ToString())
    | Notified(handler: Handler)             // handler(sender, EventArgs.Empty)

  /** The observable history of the process, in the order things happened. */
  class Trace {
    var events: seq<Effect>

    constructor()
      ensures events == []
    {
      events := [];
    }
  }

  /** The calls that invoking a multicast delegate with invocation list
      `handlers` makes, in subscription order. */
  function Invocations(handlers: seq<Handler>): (r: seq<Effect>)
    ensures |r| == |handlers|
    ensures forall i | 0 <= i < |r| :: r[i] == Notified(handlers[i])
  {
    if handlers == [] then []
    else Invocations(handlers[..|handlers| - 1]) + [Notified(handlers[|handlers| - 1])]
  }

  /** Each handler is called as many times as it occurs in the invocation list. */
  lemma {:induction false} InvocationsCount(handlers: seq<Handler>, h: Handler)
    ensures multiset(Invocations(handlers))[Notified(h)] == multiset(handlers)[h]
  {
    if handlers != [] {
      var init, last := handlers[..|handlers| - 1], handlers[|handlers| - 1];
      assert handlers == init + [last];
      InvocationsCount(init, h);
    }
  }

  /** `Delegate.Remove` with a single handler: the last occurrence of `h`
      leaves the invocation list; a list without `h` is returned as it is. */
  function RemoveLast(handlers: seq<Handler>, h: Handler): (r: seq<Handler>)
    ensures |r| == if h in handlers then |handlers| - 1 else |handlers|
  {
    if handlers == [] then []
    else if handlers[|handlers| - 1] == h then handlers[..|handlers| - 1]
    else RemoveLast(handlers[..|handlers| - 1], h) + [handlers[|handlers| - 1]]
  }

  /** Removing a handler takes away exactly one of its occurrences and
      keeps every other handler. */
  lemma {:induction false} RemoveLastMultiset(handlers: seq<Handler>, h: Handler)
    ensures multiset(RemoveLast(handlers, h)) == multiset(handlers) - multiset{h}
  {
    if handlers != [] {
      var init, last := handlers[..|handlers| - 1], handlers[|handlers| - 1];
      assert handlers == init + [last];
      if last != h {
        RemoveLastMultiset(init, h);
      }
    }
  }

  /** Removing a handler that is not subscribed leaves the invocation list
      as it is. */
  lemma {:induction false} RemoveLastAbsent(handlers: seq<Handler>, h: Handler)
    requires h !in handlers
    ensures RemoveLast(handlers, h) == handlers
  {
    if handlers != [] {
      var init, last := handlers[..|handlers| - 1], handlers[|handlers| - 1];
      assert handlers == init + [last];
      RemoveLastAbsent(init, h);
    }
  }

  /** Removing a present handler takes out its last occurrence, at `j`,
      and keeps every other handler in its order. */
  lemma {:induction false} RemoveLastSplits(handlers: seq<Handler>, h: Handler) returns (j: nat)
    requires h in handlers
    ensures j < |handlers| && handlers[j] == h && h !in handlers[j + 1..]
    ensures RemoveLast(handlers, h) == handlers[..j] + handlers[j + 1..]
  {
    var init, last := handlers[..|handlers| - 1], handlers[|handlers| - 1];
    assert handlers == init + [last];
    if last == h {
      j := |handlers| - 1;
      assert handlers[j + 1..] == [];
    } else {
      assert h in init;
      j := RemoveLastSplits(init, h);
      assert handlers[..j] == init[..j];
      assert handlers[j + 1..] == init[j + 1..] + [last];
    }
  }

  /** Subscribing and then unsubscribing the same handler restores the
      invocation list. */
  lemma SubscribeThenUnsubscribe(handlers: seq<Handler>, h: Handler)
    ensures RemoveLast(handlers + [h], h) == handlers
  {
    assert (handlers + [h])[..|handlers|] == handlers;
  }
}
