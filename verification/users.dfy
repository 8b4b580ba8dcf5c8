/**
 * The in-memory part of the user model of src/models/User.js: the
 * constructor's defaults and the two operations on the user's mapping list.
 * Stored mapping entries are plain objects (they are read back from JSON),
 * so they are `MappingData` values whose fields may be missing.
 */
module Users {
  import opened Js
  import opened Mappings

  /** The OAuth tokens; only the access token is ever consulted. */
  datatype Tokens = Tokens(accessToken: Option<string>)

  /** A constructed user. */
  datatype User = User(
    id: string,
    email: string,
    name: string,
    googleTokens: Tokens,
    salesmapApiKey: string,
    mappings: seq<MappingData>,
    createdAt: string,
    updatedAt: string)

  /** The plain object handed to the constructor: any field may be missing. */
  datatype UserData = UserData(
    id: Option<string>,
    email: Option<string>,
    name: Option<string>,
    googleTokens: Option<Tokens>,
    salesmapApiKey: Option<string>,
    mappings: Option<seq<MappingData>>,
    createdAt: Option<string>,
    updatedAt: Option<string>)

  /**
   * `new User(data)` at clock reading `now`: strings default to `''`, the
   * tokens to `{}`, the mapping list to `[]` (an array, even an empty one,
   * is truthy and kept), and the timestamps to `now`.
   */
  function NewUser(data: UserData, now: string): (u: User)
    ensures u.id == data.id.GetOr("") && u.email == data.email.GetOr("") && u.name == data.name.GetOr("")
    ensures u.salesmapApiKey == data.salesmapApiKey.GetOr("")
    ensures u.googleTokens == data.googleTokens.GetOr(Tokens(None))
    ensures u.mappings == data.mappings.GetOr([])
    ensures Truthy(data.createdAt) ==> u.createdAt == data.createdAt.value
    ensures !Truthy(data.createdAt) ==> u.createdAt == now
    ensures Truthy(data.updatedAt) ==> u.updatedAt == data.updatedAt.value
    ensures !Truthy(data.updatedAt) ==> u.updatedAt == now
  {
    User(
      OrElse(data.id, ""),
      OrElse(data.email, ""),
      OrElse(data.name, ""),
      if data.googleTokens.Some? then data.googleTokens.value else Tokens(None),
      OrElse(data.salesmapApiKey, ""),
      if data.mappings.Some? then data.mappings.value else [],
      OrElse(data.createdAt, now),
      OrElse(data.updatedAt, now))
  }

  /** `{...base, ...over}`: every field `over` carries replaces the one in `base`. */
  function Spread(base: MappingData, over: MappingData): MappingData {
    MappingData(
      if over.userId.Some? then over.userId else base.userId,
      if over.calendarId.Some? then over.calendarId else base.calendarId,
      if over.calendarName.Some? then over.calendarName else base.calendarName,
      if over.pipelineId.Some? then over.pipelineId else base.pipelineId,
      if over.pipelineName.Some? then over.pipelineName else base.pipelineName,
      if over.stageId.Some? then over.stageId else base.stageId,
      if over.stageName.Some? then over.stageName else base.stageName,
      if over.active.Some? then over.active else base.active,
      if over.createdAt.Some? then over.createdAt else base.createdAt,
      if over.updatedAt.Some? then over.updatedAt else base.updatedAt)
  }

  /** `findIndex(m => m.calendarId === calendarId)`: the first matching index, or -1. */
  function FindIndex(ms: seq<MappingData>, calendarId: Option<string>): (i: int)
    ensures -1 <= i < |ms|
    ensures i >= 0 ==> ms[i].calendarId == calendarId
    ensures forall k :: 0 <= k < |ms| && (i < 0 || k < i) ==> ms[k].calendarId != calendarId
    decreases |ms|
  {
    if |ms| == 0 then -1
    else if ms[0].calendarId == calendarId then 0
    else
      var i := FindIndex(ms[1..], calendarId);
      if i < 0 then -1 else i + 1
  }

  /** Some entry carries the calendar id. */
  predicate HasCalendar(ms: seq<MappingData>, calendarId: Option<string>) {
    exists k :: 0 <= k < |ms| && ms[k].calendarId == calendarId
  }

  /** No two entries share a calendar id. */
  predicate UniqueCalendars(ms: seq<MappingData>) {
    forall j, k :: 0 <= j < k < |ms| ==> ms[j].calendarId != ms[k].calendarId
  }

  /**
   * `addOrUpdateMapping` on the list, at clock reading `now`. When some
   * entry has the incoming calendar id, the FIRST such entry is replaced in
   * place by itself overridden with the incoming fields and a fresh
   * `updatedAt`; otherwise the incoming object, stamped with `now` as both
   * timestamps, is appended. No other entry changes.
   */
  function UpsertMapping(ms: seq<MappingData>, incoming: MappingData, now: string): (r: seq<MappingData>)
    ensures HasCalendar(ms, incoming.calendarId) ==> |r| == |ms|
    ensures !HasCalendar(ms, incoming.calendarId) ==> |r| == |ms| + 1 && r[..|ms|] == ms
    ensures !HasCalendar(ms, incoming.calendarId) ==>
      r[|ms|] == incoming.(createdAt := Some(now), updatedAt := Some(now))
    ensures HasCalendar(ms, incoming.calendarId) ==>
      var i := FindIndex(ms, incoming.calendarId);
      && r[i] == Spread(ms[i], incoming).(updatedAt := Some(now))
      && forall k :: 0 <= k < |ms| && k != i ==> r[k] == ms[k]
  {
    var i := FindIndex(ms, incoming.calendarId);
    if i >= 0 then
      ms[i := Spread(ms[i], incoming).(updatedAt := Some(now))]
    else
      ms + [incoming.(createdAt := Some(now), updatedAt := Some(now))]
  }

  /** After an upsert, the first entry with the incoming calendar id carries every incoming field. */
  lemma UpsertThenFind(ms: seq<MappingData>, incoming: MappingData, now: string)
    ensures var r := UpsertMapping(ms, incoming, now);
      var i := FindIndex(r, incoming.calendarId);
      && i >= 0
      && (incoming.stageId.Some? ==> r[i].stageId == incoming.stageId)
      && (incoming.active.Some? ==> r[i].active == incoming.active)
      && (incoming.pipelineId.Some? ==> r[i].pipelineId == incoming.pipelineId)
      && r[i].updatedAt == Some(now)
  {
    var r := UpsertMapping(ms, incoming, now);
    var j := FindIndex(ms, incoming.calendarId);
    if j >= 0 {
      assert r[j].calendarId == incoming.calendarId;
      assert FindIndex(r, incoming.calendarId) == j;
    } else {
      assert r[|ms|].calendarId == incoming.calendarId;
      assert FindIndex(r, incoming.calendarId) == |ms|;
    }
  }

  /** Upsert keeps calendar ids unique when they were unique before. */
  lemma UpsertKeepsCalendarsUnique(ms: seq<MappingData>, incoming: MappingData, now: string)
    requires UniqueCalendars(ms)
    ensures UniqueCalendars(UpsertMapping(ms, incoming, now))
  {
    var r := UpsertMapping(ms, incoming, now);
    var i := FindIndex(ms, incoming.calendarId);
    assert forall k :: 0 <= k < |r| ==> r[k].calendarId == (if k < |ms| then ms[k].calendarId else incoming.calendarId);
  }

  /**
   * `deleteMapping` on the list: `filter(m => m.calendarId !== calendarId)`.
   * The survivors are exactly the entries with another calendar id.
   */
  function DeleteMapping(ms: seq<MappingData>, calendarId: Option<string>): (r: seq<MappingData>)
    ensures |r| <= |ms|
    ensures !HasCalendar(r, calendarId)
    ensures forall x :: x in r <==> x in ms && x.calendarId != calendarId
    decreases |ms|
  {
    if |ms| == 0 then []
    else if ms[0].calendarId == calendarId then DeleteMapping(ms[1..], calendarId)
    else [ms[0]] + DeleteMapping(ms[1..], calendarId)
  }

  /** Deleting keeps the order of the survivors: it distributes over concatenation. */
  lemma {:induction false} DeleteDistributes(a: seq<MappingData>, b: seq<MappingData>, calendarId: Option<string>)
    ensures DeleteMapping(a + b, calendarId) == DeleteMapping(a, calendarId) + DeleteMapping(b, calendarId)
    decreases |a|
  {
    if |a| > 0 {
      assert (a + b)[1..] == a[1..] + b;
      DeleteDistributes(a[1..], b, calendarId);
    } else {
      assert a + b == b;
    }
  }

  /** A list without the calendar id is left untouched. */
  lemma {:induction false} DeleteAbsentIsIdentity(ms: seq<MappingData>, calendarId: Option<string>)
    requires !HasCalendar(ms, calendarId)
    ensures DeleteMapping(ms, calendarId) == ms
    decreases |ms|
  {
    if |ms| > 0 {
      assert !HasCalendar(ms[1..], calendarId) by {
        assert forall k :: 0 <= k < |ms| - 1 ==> ms[1..][k] == ms[k + 1];
      }
      DeleteAbsentIsIdentity(ms[1..], calendarId);
      assert ms[0].calendarId != calendarId;
    }
  }

  /** Deleting twice is deleting once. */
  lemma DeleteIdempotent(ms: seq<MappingData>, calendarId: Option<string>)
    ensures DeleteMapping(DeleteMapping(ms, calendarId), calendarId) == DeleteMapping(ms, calendarId)
  {
    DeleteAbsentIsIdentity(DeleteMapping(ms, calendarId), calendarId);
  }

  /**
   * An upsert only ever touches entries with the incoming calendar id, so
   * deleting that id afterwards gives the same list as deleting it before.
   */
  lemma DeleteUndoesUpsert(ms: seq<MappingData>, incoming: MappingData, now: string)
    ensures DeleteMapping(UpsertMapping(ms, incoming, now), incoming.calendarId) ==
            DeleteMapping(ms, incoming.calendarId)
  {
    var c := incoming.calendarId;
    var r := UpsertMapping(ms, incoming, now);
    var i := FindIndex(ms, c);
    if i >= 0 {
      assert ms == ms[..i] + [ms[i]] + ms[i + 1..];
      assert r == ms[..i] + [r[i]] + ms[i + 1..];
      DeleteDistributes(ms[..i] + [ms[i]], ms[i + 1..], c);
      DeleteDistributes(ms[..i], [ms[i]], c);
      DeleteDistributes(ms[..i] + [r[i]], ms[i + 1..], c);
      DeleteDistributes(ms[..i], [r[i]], c);
    } else {
      DeleteDistributes(ms, [r[|ms|]], c);
      assert r == ms + [r[|ms|]];
    }
  }

  /** `user.addOrUpdateMapping(mapping)` followed by `save()`, which restamps the user. */
  function AddOrUpdateMapping(u: User, incoming: MappingData, now: string): (v: User)
    ensures v.id == u.id && v.salesmapApiKey == u.salesmapApiKey && v.googleTokens == u.googleTokens
    ensures v.mappings == UpsertMapping(u.mappings, incoming, now) && v.updatedAt == now
    ensures v.email == u.email && v.name == u.name && v.createdAt == u.createdAt
  {
    u.(mappings := UpsertMapping(u.mappings, incoming, now), updatedAt := now)
  }

  /** `user.deleteMapping(calendarId)` followed by `save()`. */
  function DeleteUserMapping(u: User, calendarId: string, now: string): (v: User)
    ensures v.id == u.id && v.salesmapApiKey == u.salesmapApiKey && v.googleTokens == u.googleTokens
    ensures !HasCalendar(v.mappings, Some(calendarId)) && v.updatedAt == now
    ensures v.mappings == DeleteMapping(u.mappings, Some(calendarId))
    ensures v.email == u.email && v.name == u.name && v.createdAt == u.createdAt
  {
    u.(mappings := DeleteMapping(u.mappings, Some(calendarId)), updatedAt := now)
  }
}
