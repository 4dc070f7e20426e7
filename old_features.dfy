/** The C# 5 implementation: settings filled with `Add`, a lookup through
    `TryGetValue` and a mutable length, and a try/finally with a deferred
    rethrow written by hand with captured-exception variables. */
module OldFeatures {
  import opened Runtime
  import opened Text
  import opened Collections
  import opened Settings
  import opened Workflow

  /** What `GetFormattedSettingValue` reports for `key` in this version:
      every key is looked up. */
  function FormattedReport(key: string): (r: Report)
    ensures r.key == key
    ensures r.length == -1 || r.length == |r.shown|
  {
    ReportOf(key, if key in SettingsMap() then Some(SettingsMap()[key]) else None)
  }

  /** A key with a setting shows its value and the value's length. */
  lemma PresentKeyReport(key: string)
    requires key in SettingsMap()
    ensures FormattedReport(key) == Report(key, SettingsMap()[key], |SettingsMap()[key]|)
    ensures FormattedReport(key).length >= 0
  {
  }

  /** The length is -1 exactly when the lookup fails, and exactly when the
      not-found text is shown. */
  lemma MinusOneIffNotFound(key: string)
    ensures FormattedReport(key).length == -1 <==> key !in SettingsMap()
    ensures FormattedReport(key).shown == NotFound <==> FormattedReport(key).length == -1
  {
    if key in SettingsMap() {
      NotFoundIsNoValue(key);
    }
  }

  /** The first lookup the demo driver makes: a key with a setting. */
  lemma EnableStuffExample()
    ensures Render(FormattedReport("EnableStuff")) == "EnableStuff => `True` with length 4"
  {
    assert FormattedReport("EnableStuff") == Report("EnableStuff", "True", 4);
    RenderedFoundSample();
  }

  /** The second lookup the demo driver makes: a key without one. */
  lemma NonExistingExample()
    ensures Render(FormattedReport("NonExisting")) == "NonExisting => `key not found` with length -1"
  {
    assert FormattedReport("NonExisting") == Report("NonExisting", NotFound, -1) by {
      SettingsContents();
    }
    RenderedMissingSample();
  }

  class OldFeatures {
    /** Where debug output and handler calls become observable. */
    const out: Trace

    const isReadyOnly: bool := true

    /** The handlers subscribed to `OperationCompleted`, in order; empty
        stands for a null delegate. */
    var operationCompleted: seq<Handler>

    constructor(out: Trace)
      ensures this.out == out && operationCompleted == []
    {
      this.out := out;
      operationCompleted := [];
    }

    function IsReadOnly(): (r: bool)
      ensures r
    {
      isReadyOnly
    }

    function IsReadOnlyPropertyName(): (r: string)
      ensures r == "IsReadOnly"
    {
      "IsReadOnly"
    }

    /** `OperationCompleted += h` */
    method AddOperationCompleted(h: Handler)
      modifies this
      ensures operationCompleted == old(operationCompleted) + [h]
    {
      operationCompleted := operationCompleted + [h];
    }

    /** `OperationCompleted -= h` */
    method RemoveOperationCompleted(h: Handler)
      modifies this
      ensures operationCompleted == RemoveLast(old(operationCompleted), h)
    {
      operationCompleted := RemoveLast(operationCompleted, h);
    }

    /** `RaiseEvent`: calls every subscribed handler, in order; with no
        subscriber nothing happens. */
    method RaiseEvent()
      modifies out
      ensures out.events == old(out.events) + Invocations(operationCompleted)
    {
      var handle := operationCompleted;
      if handle != [] {
        out.events := out.events + Invocations(operationCompleted);
      }
    }

    /** `Log`: the instance twin of the shared helper. */
    method Log(exception: Exception, letItThrow: bool := false) returns (handle: bool)
      modifies out
      ensures handle <==> !letItThrow
      ensures out.events == old(out.events) + [LoggedException(exception)]
    {
      out.events := out.events + [LoggedException(exception)];
      handle := !letItThrow;
    }

    /** `ThrowAndLogException`: never returns normally; the exception it
        throws is caught, logged once, and rethrown unchanged. */
    method ThrowAndLogException() returns (o: Outcome)
      modifies out
      ensures o == Fail(EvilException)
      ensures out.events == old(out.events) + [LoggedException(EvilException)]
    {
      // try
      var rogueVariable := true;
      o := Ok;
      if rogueVariable {
        o := Fail(Exception(Some("Evil exception!!!")));
      }
      // catch (Exception ex): log, then `throw;` lets `o` out as it is
      if o.Fail? {
        var handled := Log(o.exception);
      }
    }

    function ThrowExceptionIfTrueOtherwiseWaitAsync(throwException: bool): (o: Outcome)
      ensures o.Fail? <==> throwException
      ensures o.Fail? ==> o.exception == Exception(None)
    {
      if throwException then Fail(Exception(None)) else Ok
    }

    /** `DoSomeWorkWithTryCatchFinallyAsync`: the guarded workflow, with the
        failure of the recover step held in `catchException` until the
        event has been raised. */
    method DoSomeWorkWithTryCatchFinallyAsync(throwExceptionInCatch: bool) returns (o: Outcome)
      modifies out
      ensures o == Guarded(throwExceptionInCatch, operationCompleted).outcome
      ensures out.events == old(out.events) + Guarded(throwExceptionInCatch, operationCompleted).effects
    {
      var tryException: Option<Exception> := None;
      var attempt := ThrowAndLogException();
      if attempt.Fail? {
        tryException := Some(attempt.exception);
      }

      var catchException: Option<Exception> := None;
      if tryException.Some? {
        var recovery := ThrowExceptionIfTrueOtherwiseWaitAsync(throwExceptionInCatch);
        if recovery.Fail? {
          catchException := Some(recovery.exception);
        }
      }

      RaiseEvent();

      if catchException.Some? {
        o := Fail(catchException.value);
      } else {
        o := Ok;
      }
    }

    /** `GetSettings`: a new dictionary filled with four `Add` calls, none
        of which throws because the keys are distinct. */
    method GetSettings() returns (settings: Dictionary)
      ensures fresh(settings)
      ensures settings.entries == SettingsMap()
    {
      settings := new Dictionary();
      var added := settings.Add("EnableStuff", "True");
      assert added.Ok?;
      added := settings.Add("OffsetStuff", "1234");
      assert added.Ok?;
      added := settings.Add("WidthStuff", "12345");
      assert added.Ok?;
      added := settings.Add("HeightStuff", "1234");
      assert added.Ok?;
    }

    /** `GetFormattedSettingValue`: looks the key up and renders the report. */
    method GetFormattedSettingValue(key: string) returns (r: string)
      ensures r == Render(FormattedReport(key))
    {
      var settings := GetSettings();
      var found, value := settings.TryGetValue(key);
      var valueLenght := -1;
      if found {
        valueLenght := |value.value|;
      }
      r := Render(Report(key, value.GetOr(NotFound), valueLenght));
    }
  }
}
