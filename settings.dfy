/** What both versions of `GetSettings` and `GetFormattedSettingValue`
    have in common: the four settings, the map they make, and the text
    shape `"<key> => `<value>` with length <n>"` of a formatted setting. */
module Settings {
  import opened Runtime
  import opened Text

  /** The dictionary `GetSettings` returns, as a map. */
  function SettingsMap(): (m: map<string, string>)
    ensures forall k | k in m :: |k| > 0 && 'A' <= k[0] <= 'Z'
    ensures forall k | k in m :: |m[k]| > 0
  {
    map[
      "EnableStuff" := "True",
      "OffsetStuff" := "1234",
      "WidthStuff" := "12345",
      "HeightStuff" := "1234"]
  }

  /** Four distinct keys: none of the four entries overwrites another. */
  lemma SettingsContents()
    ensures SettingsMap().Keys == {"EnableStuff", "OffsetStuff", "WidthStuff", "HeightStuff"}
    ensures |SettingsMap()| == 4
  {
    var keys := SettingsMap().Keys;
    assert "EnableStuff"[0] != "OffsetStuff"[0];
    assert "EnableStuff"[0] != "WidthStuff"[0];
    assert "EnableStuff"[0] != "HeightStuff"[0];
    assert "OffsetStuff"[0] != "WidthStuff"[0];
    assert "OffsetStuff"[0] != "HeightStuff"[0];
    assert "WidthStuff"[0] != "HeightStuff"[0];
    assert |{"EnableStuff", "OffsetStuff"}| == 2;
    assert |{"EnableStuff", "OffsetStuff", "WidthStuff"}| == 3;
  }

  /** No setting key is null, empty or white space only. */
  lemma SettingKeysNotWhiteSpace(key: string)
    requires key in SettingsMap()
    ensures !IsNullOrWhiteSpace(Some(key))
  {
    assert key[0] in {'E', 'O', 'W', 'H'};
    NotWhiteSpaceWitness(key, 0);
  }

  /** Shown in place of the value when the key has no setting. */
  const NotFound := "key not found"

  /** No setting holds the not-found text as its value. */
  lemma NotFoundIsNoValue(key: string)
    requires key in SettingsMap()
    ensures SettingsMap()[key] != NotFound
  {
  }

  /** What a formatted setting reports: the key as written, the value
      shown, and the length reported for it. */
  datatype Report = Report(key: string, shown: string, length: int)

  /** Composite formatting of `"{0} => `{1}` with length {2}"`. */
  function Render(r: Report): (s: string)
    ensures |s| == |r.key| + 5 + |r.shown| + 14 + |IntToString(r.length)|
    ensures s[..|r.key|] == r.key
    ensures s[|r.key|..|r.key| + 5] == " => `"
    ensures s[|r.key| + 5..|r.key| + 5 + |r.shown|] == r.shown
    ensures s[|r.key| + 5 + |r.shown|..|r.key| + 19 + |r.shown|] == "` with length "
    ensures s[|s| - |IntToString(r.length)|..] == IntToString(r.length)
  {
    r.key + " => `" + r.shown + "` with length " + IntToString(r.length)
  }

  /** The report for the value `value` that a lookup of `keyText`
      produced, null standing for "no value". */
  function ReportOf(keyText: string, value: Option<string>): (r: Report)
    ensures r.key == keyText
    ensures value.Some? ==> r.shown == value.value && r.length == |value.value|
    ensures value.None? ==> r.shown == NotFound && r.length == -1
  {
    match value
    case Some(v) => Report(keyText, v, |v|)
    case None => Report(keyText, NotFound, -1)
  }

  /** The length written at the end of the text reads back as the
      reported length. */
  lemma RenderedLength(r: Report)
    ensures var s := Render(r); var t := IntToString(r.length);
      |t| <= |s| && s[|s| - |t|..] == t && ParseInt(t) == Some(r.length)
  {
    IntToStringRoundTrip(r.length);
  }

  /** The text the demo driver prints for a key with a setting. */
  lemma RenderedFoundSample()
    ensures Render(Report("EnableStuff", "True", 4)) == "EnableStuff => `True` with length 4"
  {
    SmallNumbers();
  }

  /** The text the demo driver prints for a key without one. */
  lemma RenderedMissingSample()
    ensures Render(Report("NonExisting", NotFound, -1)) == "NonExisting => `key not found` with length -1"
  {
    var head := "NonExisting" + " => `" + NotFound + "` with length ";
    assert head == "NonExisting => `key not found` with length ";
    SmallNumbers();
    assert Render(Report("NonExisting", NotFound, -1)) == head + "-1";
  }
}
