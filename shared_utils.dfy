/** The static helpers the C# 6 version shares: the logging decision used
    as an exception filter, and the recover step of the workflow. */
module SharedUtils {
  import opened Runtime

  /** `Log`: writes the exception to the debug output and answers whether
      it should be handled, which is the opposite of `letItThrow`. */
  method Log(out: Trace, exception: Exception, letItThrow: bool := false) returns (handle: bool)
    modifies out
    ensures handle <==> !letItThrow
    ensures out.events == old(out.events) + [LoggedException(exception)]
  {
    out.events := out.events + [LoggedException(exception)];
    handle := !letItThrow;
  }

  /** `ThrowExceptionIfTrueOtherwiseWaitAsync`: throws a fresh, message-less
      exception when asked to; otherwise waits and completes. The wait has
      no effect on the outcome. */
  function ThrowExceptionIfTrueOtherwiseWaitAsync(throwException: bool): (o: Outcome)
    ensures o.Fail? <==> throwException
    ensures o.Fail? ==> o.exception == Exception(None)
  {
    if throwException then Fail(Exception(None)) else Ok
  }
}
