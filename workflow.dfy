/** What `DoSomeWorkWithTryCatchFinallyAsync` must do, independently of how
    either version writes it: run an attempt that always throws and logs,
    absorb that failure and run the recover step, notify every subscriber
    unconditionally, and only then let the recover step's failure out. */
module Workflow {
  import opened Runtime

  const EvilMessage := "Evil exception!!!"

  /** The failure `ThrowAndLogException` raises. */
  const EvilException := Exception(Some(EvilMessage))

  /** The failure the recover step raises: `new Exception()`. */
  const RecoveryException := Exception(None)

  /** A finished run: what it made observable, and how it ended. */
  datatype Run = Run(effects: seq<Effect>, outcome: Outcome)

  /** The attempt: log the failure, then let it leave. */
  function Attempt(): Run {
    Run([LoggedException(EvilException)], Fail(EvilException))
  }

  /** The recover step: throws exactly when asked to, and otherwise only
      waits, which has no observable effect here. */
  function Recover(throwException: bool): Run {
    Run([], if throwException then Fail(RecoveryException) else Ok)
  }

  /** `try body catch (Exception) handler`: a failed body is absorbed and
      the handler runs after it; a body that returns skips the handler. */
  function Catch(body: Run, handler: Run): Run {
    if body.outcome.Fail? then Run(body.effects + handler.effects, handler.outcome)
    else body
  }

  /** `try body finally finalizer`: the finalizer's effects follow the
      body's whatever it did, and the body's outcome is surfaced after them. */
  function Finally(body: Run, finalizer: seq<Effect>): Run {
    Run(body.effects + finalizer, body.outcome)
  }

  /** The whole workflow with `handlers` subscribed to `OperationCompleted`. */
  function Guarded(throwExceptionInCatch: bool, handlers: seq<Handler>): (r: Run)
    ensures r.effects == [LoggedException(EvilException)] + Invocations(handlers)
    ensures r.outcome == Recover(throwExceptionInCatch).outcome
  {
    Finally(Catch(Attempt(), Recover(throwExceptionInCatch)), Invocations(handlers))
  }

  /** A finally block runs after anything: its effects close the run and
      the outcome is the body's, failure or not. */
  lemma FinallyAlwaysRuns(body: Run, finalizer: seq<Effect>)
    ensures var r := Finally(body, finalizer);
      && |r.effects| == |body.effects| + |finalizer|
      && r.effects[..|body.effects|] == body.effects
      && r.effects[|body.effects|..] == finalizer
      && r.outcome == body.outcome
  {
  }

  /** Every subscriber is notified once per subscription, whether or not
      the run fails. */
  lemma NotifiedOncePerSubscription(throwExceptionInCatch: bool, handlers: seq<Handler>, h: Handler)
    ensures multiset(Guarded(throwExceptionInCatch, handlers).effects)[Notified(h)] == multiset(handlers)[h]
  {
    InvocationsCount(handlers, h);
  }

  /** A handler that is not subscribed is never called. */
  lemma UnsubscribedNeverNotified(throwExceptionInCatch: bool, handlers: seq<Handler>, h: Handler)
    requires h !in handlers
    ensures Notified(h) !in Guarded(throwExceptionInCatch, handlers).effects
  {
    NotifiedOncePerSubscription(throwExceptionInCatch, handlers, h);
  }

  /** The run fails exactly when the recover step is told to throw, and
      the failure that surfaces is the recover step's, never the attempt's. */
  lemma FailsOnlyInRecovery(throwExceptionInCatch: bool, handlers: seq<Handler>)
    ensures Guarded(throwExceptionInCatch, handlers).outcome.Fail? <==> throwExceptionInCatch
    ensures Guarded(throwExceptionInCatch, handlers).outcome.Fail? ==>
      Guarded(throwExceptionInCatch, handlers).outcome.exception == RecoveryException != EvilException
  {
  }

  /** The attempt's failure is logged exactly once, before any notification,
      and every other effect of the run is a notification. */
  lemma LoggedOnceThenNotified(throwExceptionInCatch: bool, handlers: seq<Handler>)
    ensures var e := Guarded(throwExceptionInCatch, handlers).effects;
      && |e| == |handlers| + 1
      && e[0] == LoggedException(EvilException)
      && multiset(e)[LoggedException(EvilException)] == 1
      && forall i | 1 <= i < |e| :: e[i] == Notified(handlers[i - 1])
  {
    var e := Guarded(throwExceptionInCatch, handlers).effects;
    assert e == [LoggedException(EvilException)] + Invocations(handlers);
    assert LoggedException(EvilException) !in Invocations(handlers);
  }

  /** A handler subscribed once and then unsubscribed, as the demo driver
      pairs `+=` with `-=`, is not called by the workflow. */
  lemma DetachedNeverNotified(throwExceptionInCatch: bool, handlers: seq<Handler>, h: Handler)
    requires h !in handlers
    ensures Notified(h) !in Guarded(throwExceptionInCatch, RemoveLast(handlers + [h], h)).effects
  {
    SubscribeThenUnsubscribe(handlers, h);
    UnsubscribedNeverNotified(throwExceptionInCatch, handlers, h);
  }
}
