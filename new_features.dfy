/** The C# 6 implementation: settings built with an index initializer, a
    lookup guarded by `string.IsNullOrWhiteSpace`, an exception filter
    that logs without catching, and a catch/finally around the workflow. */
module NewFeatures {
  import opened Runtime
  import opened Text
  import opened Collections
  import opened Settings
  import opened Workflow
  import SharedUtils
  import OldFeatures

  /** What `GetFormattedSettingValue` reports for `key` in this version:
      a null or white-space key is not looked up; a null key renders as
      empty text. */
  function FormattedReport(key: Option<string>): (r: Report)
    ensures r.key == key.GetOr("")
    ensures IsNullOrWhiteSpace(key) ==> r.length == -1
    ensures r.length == -1 || r.length == |r.shown|
  {
    ReportOf(key.GetOr(""),
      if IsNullOrWhiteSpace(key) || key.value !in SettingsMap() then None
      else Some(SettingsMap()[key.value]))
  }

  /** A null, empty or white-space key reports not-found with length -1. */
  lemma NullOrWhiteSpaceKeyNotFound(key: Option<string>)
    requires IsNullOrWhiteSpace(key)
    ensures FormattedReport(key) == Report(key.GetOr(""), NotFound, -1)
  {
  }

  /** A key with a setting shows its value and the value's length. */
  lemma PresentKeyReport(key: string)
    requires key in SettingsMap()
    ensures FormattedReport(Some(key)) == Report(key, SettingsMap()[key], |SettingsMap()[key]|)
  {
    SettingKeysNotWhiteSpace(key);
  }

  /** The not-found text is shown exactly when the length is -1, and that
      happens exactly when the key is null or has no setting. */
  lemma MinusOneIffNotFound(key: Option<string>)
    ensures FormattedReport(key).shown == NotFound <==> FormattedReport(key).length == -1
    ensures FormattedReport(key).length == -1 <==> key.None? || key.value !in SettingsMap()
  {
    if key.Some? && key.value in SettingsMap() {
      SettingKeysNotWhiteSpace(key.value);
      NotFoundIsNoValue(key.value);
    }
  }

  /** On every non-null key the guard changes nothing: both versions report
      the same, because no setting key is white space. */
  lemma AgreesWithOldFeatures(key: string)
    ensures FormattedReport(Some(key)) == OldFeatures.FormattedReport(key)
  {
    if key in SettingsMap() {
      SettingKeysNotWhiteSpace(key);
    }
  }

  class NewFeatures {
    /** Where debug output and handler calls become observable. */
    const out: Trace

    /** The handlers subscribed to `OperationCompleted`, in order; empty
        stands for a null delegate. */
    var operationCompleted: seq<Handler>

    constructor(out: Trace)
      ensures this.out == out && operationCompleted == []
    {
      this.out := out;
      operationCompleted := [];
    }

    function IsReadOnly(): (r: bool)
      ensures r
    {
      true
    }

    /** `nameof(IsReadOnly)` */
    function IsReadOnlyPropertyName(): (r: string)
      ensures r == "IsReadOnly"
    {
      "IsReadOnly"
    }

    /** `OperationCompleted += h` */
    method AddOperationCompleted(h: Handler)
      modifies this
      ensures operationCompleted == old(operationCompleted) + [h]
    {
      operationCompleted := operationCompleted + [h];
    }

    /** `OperationCompleted -= h` */
    method RemoveOperationCompleted(h: Handler)
      modifies this
      ensures operationCompleted == RemoveLast(old(operationCompleted), h)
    {
      operationCompleted := RemoveLast(operationCompleted, h);
    }

    /** `RaiseEvent`: `OperationCompleted?.Invoke(...)` calls every
        subscribed handler, in order; with no subscriber nothing happens. */
    method RaiseEvent()
      modifies out
      ensures out.events == old(out.events) + Invocations(operationCompleted)
    {
      if operationCompleted != [] {
        out.events := out.events + Invocations(operationCompleted);
      }
    }

    /** `ThrowAndLogException`: the filter logs the exception and declines
        it, so the catch body never runs and the exception leaves as thrown. */
    method ThrowAndLogException() returns (o: Outcome)
      modifies out
      ensures o == Fail(EvilException)
      ensures out.events == old(out.events) + [LoggedException(EvilException)]
    {
      // try
      var rogueVariable := true;
      o := Ok;
      if rogueVariable {
        o := Fail(Exception(Some("Evil exception!!!")));
      }
      // catch (Exception ex) when (SharedUtils.Log(ex, letItThrow: true))
      if o.Fail? {
        var handle := SharedUtils.Log(out, o.exception, letItThrow := true);
        if handle {
          // the catch body, a debug line, would run here: the filter
          // declined, so it cannot
          assert false;
        }
      }
    }

    /** `DoSomeWorkWithTryCatchFinallyAsync`: the catch block runs the
        recover step; whatever it throws leaves only after the finally
        block has raised the event. */
    method DoSomeWorkWithTryCatchFinallyAsync(throwExceptionInCatch: bool) returns (o: Outcome)
      modifies out
      ensures o == Guarded(throwExceptionInCatch, operationCompleted).outcome
      ensures out.events == old(out.events) + Guarded(throwExceptionInCatch, operationCompleted).effects
    {
      // try
      var attempt := ThrowAndLogException();
      // what leaves the try statement once the finally block has run
      var pending := attempt;
      if attempt.Fail? {
        // catch (Exception e)
        pending := SharedUtils.ThrowExceptionIfTrueOtherwiseWaitAsync(throwExceptionInCatch);
      }
      // finally
      RaiseEvent();
      o := pending;
    }

    /** `GetSettings`: a new dictionary filled by the index initializer,
        one indexer assignment per entry. */
    method GetSettings() returns (settings: Dictionary)
      ensures fresh(settings)
      ensures settings.entries == SettingsMap()
    {
      settings := new Dictionary();
      settings.SetItem("EnableStuff", "True");
      settings.SetItem("OffsetStuff", "1234");
      settings.SetItem("WidthStuff", "12345");
      settings.SetItem("HeightStuff", "1234");
    }

    /** `GetFormattedSettingValue`: skips the lookup for a null or
        white-space key, then renders the report. */
    method GetFormattedSettingValue(key: Option<string>) returns (r: string)
      ensures r == Render(FormattedReport(key))
    {
      var settings := GetSettings();
      var value: Option<string> := None;
      if !IsNullOrWhiteSpace(key) {
        var found;
        found, value := settings.TryGetValue(key.value);
      }
      r := Render(Report(key.GetOr(""), value.GetOr(NotFound), if value.Some? then |value.value| else -1));
    }
  }
}
