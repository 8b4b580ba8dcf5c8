/**
 * The pure helpers of src/utils/helpers.js: extracting the deal id tag from
 * an event description, and reading the calendar-to-stage table out of the
 * process environment. The environment is an ordered list of name/value
 * pairs in the order `Object.keys(process.env)` enumerates them.
 */
module Helpers {
  import opened Js
  import opened Text

  // ---------------------------------------------------------------------
  // Deal tag: the regular expression /\[SALESMAP:([^\]]+)\]/

  /** The literal text the tag pattern starts with. */
  const TagOpen: string := "[SALESMAP:"

  /**
   * The tag pattern matches at position `i` with capture group `cap`: the
   * opener, one or more characters other than `]`, then `]`.
   */
  ghost predicate IsMatchAt(s: string, i: nat, cap: string) {
    && i + |TagOpen| + |cap| < |s|
    && s[i..i + |TagOpen|] == TagOpen
    && |cap| >= 1
    && ']' !in cap
    && s[i + |TagOpen|..i + |TagOpen| + |cap|] == cap
    && s[i + |TagOpen| + |cap|] == ']'
  }

  /** Index of the first `c` at or after `from`, or `|s|` when there is none. */
  function FirstIndex(s: string, c: char, from: nat): (j: nat)
    requires from <= |s|
    ensures from <= j <= |s|
    ensures j < |s| ==> s[j] == c
    ensures forall k :: from <= k < j ==> s[k] != c
    decreases |s| - from
  {
    if from == |s| then |s|
    else if s[from] == c then from
    else FirstIndex(s, c, from + 1)
  }

  /** A capture always ends at the first `]` after the opener. */
  lemma CaptureEndsAtFirstBracket(s: string, i: nat, cap: string)
    ensures IsMatchAt(s, i, cap) ==> FirstIndex(s, ']', i + |TagOpen|) == i + |TagOpen| + |cap|
  {
    if IsMatchAt(s, i, cap) {
      var start := i + |TagOpen|;
      assert forall k :: start <= k < start + |cap| ==> s[k] == cap[k - start];
    }
  }

  /**
   * The capture of the pattern when it matches at `i`: the text between the
   * opener and the first following `]`, provided that text is non-empty.
   */
  function MatchAt(s: string, i: nat): (r: Option<string>)
    requires i <= |s|
    ensures r.Some? ==> IsMatchAt(s, i, r.value)
    ensures r.None? ==> forall cap :: !IsMatchAt(s, i, cap)
  {
    if i + |TagOpen| <= |s| && s[i..i + |TagOpen|] == TagOpen then
      var start := i + |TagOpen|;
      var j := FirstIndex(s, ']', start);
      if start < j < |s| then
        assert s[start..j] == s[i + |TagOpen|..i + |TagOpen| + |s[start..j]|];
        Some(s[start..j])
      else
        assert forall cap :: IsMatchAt(s, i, cap) ==> j == start + |cap| by {
          forall cap ensures IsMatchAt(s, i, cap) ==> j == start + |cap| {
            CaptureEndsAtFirstBracket(s, i, cap);
          }
        }
        None
    else
      None
  }

  /** The leftmost position at or after `from` where the whole pattern matches. */
  function LeftmostMatch(s: string, from: nat): (r: Option<nat>)
    requires from <= |s|
    ensures r.Some? ==> from <= r.value <= |s| && MatchAt(s, r.value).Some?
    ensures r.Some? ==> forall k :: from <= k < r.value ==> MatchAt(s, k).None?
    ensures r.None? ==> forall k :: from <= k <= |s| ==> MatchAt(s, k).None?
    decreases |s| - from
  {
    if MatchAt(s, from).Some? then Some(from)
    else if from == |s| then None
    else LeftmostMatch(s, from + 1)
  }

  /**
   * `extractDealIdFromEvent`: no description (or an empty one) gives no id;
   * otherwise the trimmed capture of the leftmost match, or no id when the
   * pattern matches nowhere.
   */
  function ExtractDealId(description: Option<string>): (r: Option<string>)
    ensures !Truthy(description) ==> r.None?
    ensures r.Some? ==> ']' !in r.value
  {
    if !Truthy(description) then None
    else
      var d := description.value;
      match LeftmostMatch(d, 0)
      case None => None
      case Some(i) =>
        var cap := MatchAt(d, i).value;
        TrimKeepsAbsence(cap, ']');
        Some(Trim(cap))
  }

  /**
   * Reference reading of the extraction: when the pattern matches at `i`
   * with capture `cap` and nowhere to the left of `i`, the result is the
   * trimmed capture; when it matches nowhere, there is no result.
   */
  lemma ExtractDealIdIsLeftmostTrimmedCapture(d: string, i: nat, cap: string)
    requires d != ""
    requires IsMatchAt(d, i, cap)
    requires forall k, c :: 0 <= k < i && IsMatchAt(d, k, c) ==> false
    ensures ExtractDealId(Some(d)) == Some(Trim(cap))
  {
    var mi := MatchAt(d, i);
    assert mi.Some?;
    var m := LeftmostMatch(d, 0);
    assert m.Some?;
    assert IsMatchAt(d, m.value, MatchAt(d, m.value).value);
    assert m.value == i;
    MatchAtDetermined(d, i, cap, mi.value);
  }

  /** At a given position the capture, if any, is unique: it ends at the first `]`. */
  lemma MatchAtDetermined(s: string, i: nat, c1: string, c2: string)
    requires IsMatchAt(s, i, c1) && IsMatchAt(s, i, c2)
    ensures c1 == c2
  {
    CaptureEndsAtFirstBracket(s, i, c1);
    CaptureEndsAtFirstBracket(s, i, c2);
  }

  /** A description in which the pattern matches nowhere carries no deal id. */
  lemma ExtractDealIdNoMatch(d: string)
    requires forall k, c :: 0 <= k <= |d| && IsMatchAt(d, k, c) ==> false
    ensures ExtractDealId(Some(d)).None?
  {
    assert forall k :: 0 <= k <= |d| ==> MatchAt(d, k).None?;
  }

  /** A tag holding only white space yields the empty id, not an absent one. */
  lemma WhiteOnlyTagYieldsEmptyId(d: string, i: nat, cap: string)
    requires IsMatchAt(d, i, cap) && AllWhite(cap)
    requires forall k, c :: 0 <= k < i && IsMatchAt(d, k, c) ==> false
    ensures ExtractDealId(Some(d)) == Some("")
  {
    ExtractDealIdIsLeftmostTrimmedCapture(d, i, cap);
    TrimEmptyIffAllWhite(cap);
  }

  // ---------------------------------------------------------------------
  // Environment mapping table

  /** An environment variable: name and value. */
  type EnvVar = (string, string)

  /** Prefix of the variables that hold `calendarId=stageId` pairs. */
  const MappingPrefix: string := "CALENDAR_MAPPING_"

  /** `const [calId, stageId] = value.split('=')`: the first piece. */
  function CalIdOf(value: string): string {
    Split(value, '=')[0]
  }

  /** The second piece, absent (`undefined`) when there is no `=`. */
  function StageIdOf(value: string): Option<string> {
    var parts := Split(value, '=');
    if |parts| > 1 then Some(parts[1]) else None
  }

  /**
   * Destructuring keeps only the first two `=`-pieces: whatever follows a
   * second `=` is dropped.
   */
  lemma EntryKeepsFirstTwoPieces(cal: string, stage: string, rest: string)
    requires '=' !in cal && '=' !in stage
    ensures CalIdOf(cal + "=" + stage) == cal && StageIdOf(cal + "=" + stage) == Some(stage)
    ensures CalIdOf(cal + "=" + stage + "=" + rest) == cal
    ensures StageIdOf(cal + "=" + stage + "=" + rest) == Some(stage)
  {
    SplitWithoutSeparator(cal, '=');
    SplitWithoutSeparator(stage, '=');
    SplitAroundSeparator(cal, stage, '=');
    SplitAroundSeparator(stage, rest, '=');
    SplitAroundSeparator(cal, stage + "=" + rest, '=');
    assert cal + "=" + stage + "=" + rest == cal + ['='] + (stage + ['='] + rest);
    assert cal + "=" + stage == cal + ['='] + stage;
  }

  /** The variable takes part in the table: prefixed name, non-empty calendar and stage ids. */
  predicate IsTableEntry(v: EnvVar) {
    StartsWith(v.0, MappingPrefix) && CalIdOf(v.1) != "" && Truthy(StageIdOf(v.1))
  }

  /** The last table entry of `env` whose calendar id is `c`, or -1 when none is. */
  function LastEntryFor(env: seq<EnvVar>, c: string): (i: int)
    ensures -1 <= i < |env|
    ensures i >= 0 ==> IsTableEntry(env[i]) && CalIdOf(env[i].1) == c
    ensures forall k :: i < k < |env| ==> !(IsTableEntry(env[k]) && CalIdOf(env[k].1) == c)
    decreases |env|
  {
    if |env| == 0 then -1
    else if IsTableEntry(env[|env| - 1]) && CalIdOf(env[|env| - 1].1) == c then |env| - 1
    else LastEntryFor(env[..|env| - 1], c)
  }

  /**
   * `getAllCalendarMappings`: a calendar id is in the table exactly when
   * some table entry names it, and it maps to the stage id of the LAST such
   * entry, because a later assignment overwrites an earlier one.
   */
  function AllCalendarMappings(env: seq<EnvVar>): (table: map<string, string>)
    ensures forall c :: c in table <==> LastEntryFor(env, c) >= 0
    ensures forall c :: c in table ==> table[c] == StageIdOf(env[LastEntryFor(env, c)].1).value
    ensures forall c :: c in table ==> c != "" && table[c] != ""
    decreases |env|
  {
    if |env| == 0 then map[]
    else
      var table := AllCalendarMappings(env[..|env| - 1]);
      var v := env[|env| - 1];
      if IsTableEntry(v) then table[CalIdOf(v.1) := StageIdOf(v.1).value] else table
  }

  /** The table never holds more than the given pairs: appending one non-entry changes nothing. */
  lemma NonEntryLeavesTable(env: seq<EnvVar>, v: EnvVar)
    requires !IsTableEntry(v)
    ensures AllCalendarMappings(env + [v]) == AllCalendarMappings(env)
  {
    assert (env + [v])[..|env|] == env;
  }

  /** `process.env[name]`: the value of the last variable with that name. */
  function EnvGet(env: seq<EnvVar>, name: string): (r: Option<string>)
    ensures r.Some? ==> exists i :: 0 <= i < |env| && env[i] == (name, r.value)
    decreases |env|
  {
    if |env| == 0 then None
    else if env[|env| - 1].0 == name then Some(env[|env| - 1].1)
    else EnvGet(env[..|env| - 1], name)
  }

  /** `process.env.X?.split('=')[0]` used as an object key: `"undefined"` when `X` is unset. */
  function PresetKey(value: Option<string>): string {
    match value
    case None => "undefined"
    case Some(s) => CalIdOf(s)
  }

  /** `process.env.X?.split('=')[1]`: absent when `X` is unset or has no `=`. */
  function PresetStage(value: Option<string>): Option<string> {
    match value
    case None => None
    case Some(s) => StageIdOf(s)
  }

  /**
   * The object literal `getStageIdForCalendar` starts from: one entry for
   * each of `CALENDAR_MAPPING_A`, `_B` and `_C`, later keys overwriting
   * earlier ones.
   */
  function Presets(env: seq<EnvVar>): map<string, Option<string>> {
    var a := EnvGet(env, "CALENDAR_MAPPING_A");
    var b := EnvGet(env, "CALENDAR_MAPPING_B");
    var c := EnvGet(env, "CALENDAR_MAPPING_C");
    map[PresetKey(a) := PresetStage(a)][PresetKey(b) := PresetStage(b)][PresetKey(c) := PresetStage(c)]
  }

  /**
   * `getStageIdForCalendar`: the preset object overwritten by every table
   * entry, looked up with `|| null`, so an absent or empty stage id gives
   * no result.
   */
  function StageIdForCalendar(env: seq<EnvVar>, calendarId: string): (r: Option<string>)
    ensures r.Some? ==> r.value != ""
  {
    var table := AllCalendarMappings(env);
    var found :=
      if calendarId in table then Some(table[calendarId])
      else if calendarId in Presets(env) then Presets(env)[calendarId]
      else None;
    if Truthy(found) then found else None
  }

  /** A preset built from a variable that is also a table entry is in the table. */
  lemma PresetFromEntry(env: seq<EnvVar>, name: string, c: string)
    requires StartsWith(name, MappingPrefix)
    requires c != ""
    requires PresetKey(EnvGet(env, name)) == c && Truthy(PresetStage(EnvGet(env, name)))
    ensures c in AllCalendarMappings(env)
  {
    var value := EnvGet(env, name).value;
    var i :| 0 <= i < |env| && env[i] == (name, value);
    assert IsTableEntry(env[i]) && CalIdOf(env[i].1) == c;
    var last := LastEntryFor(env, c);
  }

  /**
   * For every non-empty calendar id, `getStageIdForCalendar` agrees with the
   * table of `getAllCalendarMappings`: the presets can only contribute a
   * stage that the table already holds.
   */
  lemma StageIdAgreesWithTable(env: seq<EnvVar>, calendarId: string)
    requires calendarId != ""
    ensures StageIdForCalendar(env, calendarId) ==
            (if calendarId in AllCalendarMappings(env) then Some(AllCalendarMappings(env)[calendarId]) else None)
  {
    var table := AllCalendarMappings(env);
    var presets := Presets(env);
    if calendarId !in table && calendarId in presets && Truthy(presets[calendarId]) {
      var a := EnvGet(env, "CALENDAR_MAPPING_A");
      var b := EnvGet(env, "CALENDAR_MAPPING_B");
      var c := EnvGet(env, "CALENDAR_MAPPING_C");
      assert StartsWith("CALENDAR_MAPPING_A", MappingPrefix);
      assert StartsWith("CALENDAR_MAPPING_B", MappingPrefix);
      assert StartsWith("CALENDAR_MAPPING_C", MappingPrefix);
      if PresetKey(c) == calendarId {
        PresetFromEntry(env, "CALENDAR_MAPPING_C", calendarId);
      } else if PresetKey(b) == calendarId {
        PresetFromEntry(env, "CALENDAR_MAPPING_B", calendarId);
      } else {
        PresetFromEntry(env, "CALENDAR_MAPPING_A", calendarId);
      }
    }
  }

  /** An unmapped calendar, or one whose only entries have an empty stage id, gives no stage. */
  lemma UnmappedCalendarHasNoStage(env: seq<EnvVar>, calendarId: string)
    requires calendarId != ""
    requires forall i :: 0 <= i < |env| ==> !(IsTableEntry(env[i]) && CalIdOf(env[i].1) == calendarId)
    ensures StageIdForCalendar(env, calendarId).None?
  {
    StageIdAgreesWithTable(env, calendarId);
  }
}
