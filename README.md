# Old and new C# features, modelled in Dafny

The repository implements one interface twice: `OldFeatures` in C# 5 style and
`NewFeatures` in C# 6 style, with `SharedUtils` holding the static helpers the
C# 6 version uses. Three pieces of that code have behaviour worth stating, and
this project models all three and proves what they do:

- **Settings lookup and formatting.** `GetSettings` builds a dictionary of four
  settings; `GetFormattedSettingValue` looks a key up and renders
  ``"<key> => `<value>` with length <n>"``, or `key not found` and `-1` on a
  miss. The C# 6 version skips the lookup for a null or white-space key.
- **The logging decision.** `Log(e, letItThrow)` writes the exception to the
  debug output and returns `!letItThrow`; as an exception filter
  (`when (Log(ex, letItThrow: true))`) it declines the exception.
- **The guarded workflow.** `DoSomeWorkWithTryCatchFinallyAsync(flag)` runs
  `ThrowAndLogException` (which always throws "Evil exception!!!" after
  logging it), absorbs that failure, runs the recover step (which throws only
  when `flag` is true), raises `OperationCompleted` unconditionally, and only
  then lets the recover step's failure out. The C# 5 version does this by hand
  with the captured-exception variables `tryException` and `catchException`;
  the C# 6 version uses `catch` and `finally`.

Layout, one module per file:

- `runtime.dfy` (`Runtime`): null as `Option`, `Exception`, `Outcome` (how a
  call that may throw ends), `Trace` (the process-wide record of debug output
  and event-handler calls), and the invocation list behind a C# event
  (`Invocations`, `RemoveLast`).
- `text.dfy` (`Text`): `char.IsWhiteSpace`, `string.IsNullOrWhiteSpace`, and
  decimal rendering of an `int` with its inverse.
- `collections.dfy` (`Collections`): `Dictionary<string, string>` as a class
  whose `entries` map `Add`, the indexer setter and `TryGetValue` work on.
- `settings.dfy` (`Settings`): the four entries, the map they make, the report
  a formatted setting shows, and its rendering.
- `workflow.dfy` (`Workflow`): the reference semantics of the guarded workflow,
  built from `Attempt`, `Recover`, `Catch` and `Finally` on runs (effects
  plus outcome), and the lemmas about it.
- `shared_utils.dfy` (`SharedUtils`), `old_features.dfy` (`OldFeatures`),
  `new_features.dfy` (`NewFeatures`): the source files. Each feature class owns
  its `operationCompleted` subscriber list and a `Trace`; its methods are proved
  against the functions of `Settings` and `Workflow`. Both versions of
  `DoSomeWorkWithTryCatchFinallyAsync` are proved equal to the same
  `Workflow.Guarded` run, so they give the same outcome, the same effects and
  the same notifications in the same order, the notifications before the
  failure leaves. Both versions of `GetFormattedSettingValue` are proved equal
  to a report function, and `NewFeatures.AgreesWithOldFeatures` proves the two
  report functions equal on every non-null key.

Exceptions are values of `Outcome`: a method that may throw returns `Ok` or
`Fail(exception)`, and a try/catch/finally is written out as the branches it
takes. The C# 5 `ThrowAndLogException` calls `Log(ex)` with the default
`letItThrow = false` and ignores the answer (OldFeatures.cs:113); only the C# 6
filter passes `true` (NewFeatures.cs:85). Both log once and rethrow, as
modelled.

## Model

| member | source | states |
|---|---|---|
| `Runtime.Invocations` | NewFeaturesComparisonCS6/NewFeaturesComparisonCS6/NewFeatures.cs:65 | invoking the event calls each subscribed handler once per subscription, in subscription order, and nothing else |
| `Runtime.InvocationsCount` | NewFeaturesComparisonCS6/NewFeaturesComparisonCS6/OldFeatures.cs:83-86 | a handler is called exactly as many times as it is subscribed |
| `Runtime.RemoveLast` | NewFeaturesComparisonCS6/NewFeaturesComparisonCS6/OldFeatures.cs:16 | unsubscribing shortens the invocation list by one exactly when the handler is in it |
| `Runtime.RemoveLastMultiset` | NewFeaturesComparisonCS6/NewFeaturesComparisonCS6/OldFeatures.cs:16 | unsubscribing removes one occurrence of that handler and keeps every other subscription |
| `Runtime.RemoveLastAbsent` | NewFeaturesComparisonCS6/NewFeaturesComparisonCS6/OldFeatures.cs:16 | unsubscribing a handler that is not subscribed leaves the invocation list unchanged |
| `Runtime.RemoveLastSplits` | NewFeaturesComparisonCS6/NewFeaturesComparisonCS6/OldFeatures.cs:16 | unsubscribing a present handler removes its last occurrence and keeps every other subscription in its order |
| `Runtime.SubscribeThenUnsubscribe` | NewFeaturesComparisonCS6/NewFeaturesComparisonCS6/Program.cs:25-50 | subscribing and then unsubscribing a handler restores the invocation list |
| `Text.IsWhiteSpace` | NewFeaturesComparisonCS6/NewFeaturesComparisonCS6/NewFeatures.cs:118 | `char.IsWhiteSpace` as the guard uses it: space, tab and newline are white space, and no ASCII letter or digit is |
| `Text.IsNullOrWhiteSpace` | NewFeaturesComparisonCS6/NewFeaturesComparisonCS6/NewFeatures.cs:118 | `string.IsNullOrWhiteSpace`: null and the empty string are rejected by the guard; a string starting with an ASCII letter or digit passes it |
| `Text.NotWhiteSpaceWitness` | NewFeaturesComparisonCS6/NewFeaturesComparisonCS6/NewFeatures.cs:118 | a string with one non-white-space character is not null-or-white-space |
| `Text.NatToString` | NewFeaturesComparisonCS6/NewFeaturesComparisonCS6/OldFeatures.cs:146-149 | a length is written as at least one decimal digit, with no leading zero |
| `Text.DigitsValueOfNatToString` | NewFeaturesComparisonCS6/NewFeaturesComparisonCS6/OldFeatures.cs:146-149 | the digits written for a length denote that length |
| `Text.IntToString` | NewFeaturesComparisonCS6/NewFeaturesComparisonCS6/NewFeatures.cs:124 | the written number starts with a minus sign exactly when it is negative |
| `Text.IntToStringRoundTrip` | NewFeaturesComparisonCS6/NewFeaturesComparisonCS6/NewFeatures.cs:124 | reading back the written number gives the number, -1 included |
| `Collections.Dictionary.constructor` | NewFeaturesComparisonCS6/NewFeaturesComparisonCS6/OldFeatures.cs:125 | a new dictionary is empty |
| `Collections.Dictionary.Add` | NewFeaturesComparisonCS6/NewFeaturesComparisonCS6/OldFeatures.cs:126-129 | `Add` throws exactly when the key is present, then changing nothing; otherwise it inserts the entry |
| `Collections.Dictionary.SetItem` | NewFeaturesComparisonCS6/NewFeaturesComparisonCS6/NewFeatures.cs:100-103 | an index assignment inserts or overwrites the entry |
| `Collections.Dictionary.TryGetValue` | NewFeaturesComparisonCS6/NewFeaturesComparisonCS6/OldFeatures.cs:141 | the lookup succeeds exactly when the key is present; the out value is the stored value, or null on a miss |
| `Settings.SettingsMap` | NewFeaturesComparisonCS6/NewFeaturesComparisonCS6/OldFeatures.cs:122-132 | the dictionary both `GetSettings` build: every key is non-empty and starts with an upper-case letter, every value is non-empty |
| `Settings.SettingsContents` | NewFeaturesComparisonCS6/NewFeaturesComparisonCS6/OldFeatures.cs:122-132 | the settings have exactly the keys EnableStuff, OffsetStuff, WidthStuff and HeightStuff, and these four are distinct, so no entry overwrites another and the dictionary holds four settings |
| `Settings.Render` | NewFeaturesComparisonCS6/NewFeaturesComparisonCS6/OldFeatures.cs:146-149 | the composite format `"{0} => `{1}` with length {2}"`: the text is the key, the literal " => `", the shown value, the literal "` with length " and the decimal length, each at its fixed position |
| `Settings.SettingKeysNotWhiteSpace` | NewFeaturesComparisonCS6/NewFeaturesComparisonCS6/NewFeatures.cs:98-104 | no setting key is null, empty or white space |
| `Settings.NotFoundIsNoValue` | NewFeaturesComparisonCS6/NewFeaturesComparisonCS6/OldFeatures.cs:148 | no setting value is the text `key not found` |
| `Settings.ReportOf` | NewFeaturesComparisonCS6/NewFeaturesComparisonCS6/NewFeatures.cs:124 | a value found is shown with its length; a null value shows `key not found` and -1 |
| `Settings.RenderedLength` | NewFeaturesComparisonCS6/NewFeaturesComparisonCS6/OldFeatures.cs:146-149 | the rendered text ends with the reported length, which reads back unchanged |
| `Settings.RenderedFoundSample` | NewFeaturesComparisonCS6/NewFeaturesComparisonCS6/Program.cs:44 | the report for EnableStuff renders as ``EnableStuff => `True` with length 4`` |
| `Settings.RenderedMissingSample` | NewFeaturesComparisonCS6/NewFeaturesComparisonCS6/Program.cs:45 | the report for NonExisting renders as ``NonExisting => `key not found` with length -1`` |
| `Workflow.Guarded` | NewFeaturesComparisonCS6/NewFeaturesComparisonCS6/NewFeatures.cs:39-58 | the try/catch/finally workflow composed from its steps flattens to: one log of "Evil exception!!!", then one call per subscription in order; it ends as the recover step ends |
| `Workflow.FinallyAlwaysRuns` | NewFeaturesComparisonCS6/NewFeaturesComparisonCS6/NewFeatures.cs:52-57 | documents the `Finally` step: its effects follow whatever the body did, close the run, and leave the body's outcome as it was (the workflow-level evidence is `Workflow.NotifiedOncePerSubscription` and `Workflow.LoggedOnceThenNotified`) |
| `Workflow.NotifiedOncePerSubscription` | NewFeaturesComparisonCS6/NewFeaturesComparisonCS6/OldFeatures.cs:56-58 | whatever the flag, the workflow calls each handler once per subscription |
| `Workflow.UnsubscribedNeverNotified` | NewFeaturesComparisonCS6/NewFeaturesComparisonCS6/Program.cs:50 | a handler that is not subscribed is never called by the workflow |
| `Workflow.DetachedNeverNotified` | NewFeaturesComparisonCS6/NewFeaturesComparisonCS6/Program.cs:25-50 | a handler attached with `+=` and detached with `-=` is not called by the workflow |
| `Workflow.FailsOnlyInRecovery` | NewFeaturesComparisonCS6/NewFeaturesComparisonCS6/OldFeatures.cs:40-64 | the workflow fails exactly when the flag is set, and then with the recover step's exception, never "Evil exception!!!" |
| `Workflow.LoggedOnceThenNotified` | NewFeaturesComparisonCS6/NewFeaturesComparisonCS6/OldFeatures.cs:25-58 | the inner failure is logged exactly once, first; every later effect is a handler call, in subscription order |
| `SharedUtils.Log` | NewFeaturesComparisonCS6/NewFeaturesComparisonCS6/SharedUtils.cs:15-19 | answers "handle" exactly when `letItThrow` is false (so `Log(e)` handles and `Log(e, true)` declines), and writes the exception once to the debug output |
| `SharedUtils.ThrowExceptionIfTrueOtherwiseWaitAsync` | NewFeaturesComparisonCS6/NewFeaturesComparisonCS6/SharedUtils.cs:24-35 | throws exactly when asked to, a message-less exception; otherwise completes |
| `OldFeatures.FormattedReport` | NewFeaturesComparisonCS6/NewFeaturesComparisonCS6/OldFeatures.cs:134-149 | the C# 5 report looks every key up; it echoes the key, and its length is -1 or the length of the shown value |
| `OldFeatures.PresentKeyReport` | NewFeaturesComparisonCS6/NewFeaturesComparisonCS6/OldFeatures.cs:141-149 | a key with a setting shows its value and the value's length, which is not negative |
| `OldFeatures.MinusOneIffNotFound` | NewFeaturesComparisonCS6/NewFeaturesComparisonCS6/OldFeatures.cs:139-149 | the length is -1 exactly when the lookup fails, and exactly when `key not found` is shown |
| `OldFeatures.EnableStuffExample` | NewFeaturesComparisonCS6/NewFeaturesComparisonCS6/Program.cs:44 | looking up EnableStuff gives ``EnableStuff => `True` with length 4`` |
| `OldFeatures.NonExistingExample` | NewFeaturesComparisonCS6/NewFeaturesComparisonCS6/Program.cs:45 | looking up NonExisting gives ``NonExisting => `key not found` with length -1`` |
| `OldFeatures.OldFeatures.constructor` | NewFeaturesComparisonCS6/NewFeaturesComparisonCS6/OldFeatures.cs:10-16 | a new instance has no subscriber |
| `OldFeatures.OldFeatures.IsReadOnly` | NewFeaturesComparisonCS6/NewFeaturesComparisonCS6/OldFeatures.cs:10-12 | `IsReadOnly` is true |
| `OldFeatures.OldFeatures.IsReadOnlyPropertyName` | NewFeaturesComparisonCS6/NewFeaturesComparisonCS6/OldFeatures.cs:14 | `IsReadOnlyPropertyName` is "IsReadOnly" |
| `OldFeatures.OldFeatures.AddOperationCompleted` | NewFeaturesComparisonCS6/NewFeaturesComparisonCS6/OldFeatures.cs:16 | subscribing appends the handler to the invocation list |
| `OldFeatures.OldFeatures.RemoveOperationCompleted` | NewFeaturesComparisonCS6/NewFeaturesComparisonCS6/OldFeatures.cs:16 | unsubscribing removes the handler's last occurrence |
| `OldFeatures.OldFeatures.RaiseEvent` | NewFeaturesComparisonCS6/NewFeaturesComparisonCS6/OldFeatures.cs:80-88 | raising the event calls the subscribed handlers in order and nothing else; with none it changes nothing |
| `OldFeatures.OldFeatures.Log` | NewFeaturesComparisonCS6/NewFeaturesComparisonCS6/OldFeatures.cs:90-94 | answers `!letItThrow` (true by default) and writes the exception once to the debug output |
| `OldFeatures.OldFeatures.ThrowAndLogException` | NewFeaturesComparisonCS6/NewFeaturesComparisonCS6/OldFeatures.cs:96-120 | never completes normally: throws "Evil exception!!!" after logging it exactly once |
| `OldFeatures.OldFeatures.ThrowExceptionIfTrueOtherwiseWaitAsync` | NewFeaturesComparisonCS6/NewFeaturesComparisonCS6/OldFeatures.cs:67-78 | throws exactly when asked to, a message-less exception; otherwise completes |
| `OldFeatures.OldFeatures.DoSomeWorkWithTryCatchFinallyAsync` | NewFeaturesComparisonCS6/NewFeaturesComparisonCS6/OldFeatures.cs:23-65 | outcome and effects are those of the reference workflow `Workflow.Guarded`: log once, notify every subscriber once, then fail exactly when the flag is set |
| `OldFeatures.OldFeatures.GetSettings` | NewFeaturesComparisonCS6/NewFeaturesComparisonCS6/OldFeatures.cs:122-132 | returns a new dictionary holding exactly the four settings; no `Add` throws |
| `OldFeatures.OldFeatures.GetFormattedSettingValue` | NewFeaturesComparisonCS6/NewFeaturesComparisonCS6/OldFeatures.cs:134-150 | returns the rendering of the key's report: its value and length, or `key not found` and -1 |
| `NewFeatures.FormattedReport` | NewFeaturesComparisonCS6/NewFeaturesComparisonCS6/NewFeatures.cs:113-125 | the C# 6 report echoes the key (null as empty text), gives -1 without a lookup for a null or white-space key, and otherwise -1 or the length of the shown value |
| `NewFeatures.NullOrWhiteSpaceKeyNotFound` | NewFeaturesComparisonCS6/NewFeaturesComparisonCS6/NewFeatures.cs:117-124 | a null, empty or white-space key reports `key not found` and -1, a null key rendering as empty text |
| `NewFeatures.PresentKeyReport` | NewFeaturesComparisonCS6/NewFeaturesComparisonCS6/NewFeatures.cs:124 | a key with a setting shows its value and the value's length |
| `NewFeatures.MinusOneIffNotFound` | NewFeaturesComparisonCS6/NewFeaturesComparisonCS6/NewFeatures.cs:124 | `key not found` is shown exactly when the length is -1, which is exactly when the key is null or has no setting |
| `NewFeatures.AgreesWithOldFeatures` | NewFeaturesComparisonCS6/NewFeaturesComparisonCS6/NewFeatures.cs:113-125 | on every non-null key the C# 6 report equals the C# 5 report |
| `NewFeatures.NewFeatures.constructor` | NewFeaturesComparisonCS6/NewFeaturesComparisonCS6/NewFeatures.cs:17-28 | a new instance has no subscriber |
| `NewFeatures.NewFeatures.IsReadOnly` | NewFeaturesComparisonCS6/NewFeaturesComparisonCS6/NewFeatures.cs:17 | `IsReadOnly` is true |
| `NewFeatures.NewFeatures.IsReadOnlyPropertyName` | NewFeaturesComparisonCS6/NewFeaturesComparisonCS6/NewFeatures.cs:23 | `IsReadOnlyPropertyName` is "IsReadOnly" |
| `NewFeatures.NewFeatures.AddOperationCompleted` | NewFeaturesComparisonCS6/NewFeaturesComparisonCS6/NewFeatures.cs:28 | subscribing appends the handler to the invocation list |
| `NewFeatures.NewFeatures.RemoveOperationCompleted` | NewFeaturesComparisonCS6/NewFeaturesComparisonCS6/NewFeatures.cs:28 | unsubscribing removes the handler's last occurrence |
| `NewFeatures.NewFeatures.RaiseEvent` | NewFeaturesComparisonCS6/NewFeaturesComparisonCS6/NewFeatures.cs:63-66 | raising the event calls the subscribed handlers in order and nothing else; with none it changes nothing |
| `NewFeatures.NewFeatures.ThrowAndLogException` | NewFeaturesComparisonCS6/NewFeaturesComparisonCS6/NewFeatures.cs:71-89 | the filter logs once and declines, the catch body is unreachable, and "Evil exception!!!" leaves unchanged |
| `NewFeatures.NewFeatures.DoSomeWorkWithTryCatchFinallyAsync` | NewFeaturesComparisonCS6/NewFeaturesComparisonCS6/NewFeatures.cs:39-58 | outcome and effects are those of `Workflow.Guarded`, the same as the C# 5 version's |
| `NewFeatures.NewFeatures.GetSettings` | NewFeaturesComparisonCS6/NewFeaturesComparisonCS6/NewFeatures.cs:95-105 | returns a new dictionary holding exactly the same four settings as the C# 5 version |
| `NewFeatures.NewFeatures.GetFormattedSettingValue` | NewFeaturesComparisonCS6/NewFeaturesComparisonCS6/NewFeatures.cs:113-125 | returns the rendering of the key's report, a null or white-space key reporting `key not found` and -1 without a lookup |

## Left out

- `Compute` (both versions): `Math.Pow` on doubles is floating point in a library call.
- `Task.Delay(500)` and the async machinery: the wait is a step with no effect, and the interleaving it allows with other work is not modelled.
- Event arguments: a handler call is recorded as the handler alone; the sender (`this`) and `EventArgs.Empty` that both `RaiseEvent`s pass are not recorded, so with one shared trace the calls two instances make to the same handler look alike.
- `Debug.WriteLine`: the trace models a Debug build. `Debug.WriteLine` is compiled away outside one, and then nothing is written. A logged exception is recorded as the exception value; the text of `exception.ToString()` (type name, stack trace) is not modelled.
- The debugger and stack-trace behaviour that the comments describe is tooling, not observable behaviour.
- The copy of the delegate in the C# 5 `RaiseEvent` and the compare-and-swap loop behind `+=` and `-=` exist for thread safety; the model is sequential.
- Event handlers are identities whose calls are recorded in order; what a handler does, and a handler that throws, are not modelled.
- `OldFeatures.OldFeatures.GetFormattedSettingValue`: takes a non-null key only; with a null key `TryGetValue` would throw `ArgumentNullException`, which is library behaviour.
- Dictionary values are non-null strings: the settings hold no null value, so the C# 5 dereference of `value.Length` after a successful lookup never meets null.
- The default message that `new Exception()` carries is not modelled: the recover step's exception is `Exception(None)`.
- Exception identity is value equality: a rethrown exception is the same value.
- Numbers are rendered with a plain minus sign; culture-specific number formatting is not modelled.
- `Program.cs` is the console driver; its calls are used only as example inputs. `IFeatureComparison.cs` declares the interface and holds no logic.
