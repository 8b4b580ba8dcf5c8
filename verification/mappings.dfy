/**
 * The calendar-to-pipeline-stage mapping record of src/models/Mapping.js:
 * the constructor's defaulting, `toObject`, and `isValid`.
 */
module Mappings {
  import opened Js

  /** A constructed mapping: every field holds a value. */
  datatype Mapping = Mapping(
    userId: string,
    calendarId: string,
    calendarName: string,
    pipelineId: string,
    pipelineName: string,
    stageId: string,
    stageName: string,
    active: bool,
    createdAt: string,
    updatedAt: string)

  /**
   * The plain object handed to the constructor: any field may be missing.
   * `active` carries a boolean or is `undefined`.
   */
  datatype MappingData = MappingData(
    userId: Option<string>,
    calendarId: Option<string>,
    calendarName: Option<string>,
    pipelineId: Option<string>,
    pipelineName: Option<string>,
    stageId: Option<string>,
    stageName: Option<string>,
    active: Option<bool>,
    createdAt: Option<string>,
    updatedAt: Option<string>)

  /** An object with none of the fields: `new Mapping()`. */
  const NoData := MappingData(None, None, None, None, None, None, None, None, None, None)

  /**
   * `new Mapping(data)` at clock reading `now`: the seven descriptive fields
   * fall back to `''` when missing or empty, `active` falls back to `true`
   * only when it is missing, and the two timestamps fall back to `now`.
   */
  function NewMapping(data: MappingData, now: string): (m: Mapping)
    ensures m.userId == data.userId.GetOr("") && m.calendarId == data.calendarId.GetOr("")
    ensures m.calendarName == data.calendarName.GetOr("") && m.pipelineId == data.pipelineId.GetOr("")
    ensures m.pipelineName == data.pipelineName.GetOr("") && m.stageId == data.stageId.GetOr("")
    ensures m.stageName == data.stageName.GetOr("")
    ensures data.active.Some? ==> m.active == data.active.value
    ensures data.active.None? ==> m.active
    ensures Truthy(data.createdAt) ==> m.createdAt == data.createdAt.value
    ensures !Truthy(data.createdAt) ==> m.createdAt == now
    ensures Truthy(data.updatedAt) ==> m.updatedAt == data.updatedAt.value
    ensures !Truthy(data.updatedAt) ==> m.updatedAt == now
  {
    Mapping(
      OrElse(data.userId, ""),
      OrElse(data.calendarId, ""),
      OrElse(data.calendarName, ""),
      OrElse(data.pipelineId, ""),
      OrElse(data.pipelineName, ""),
      OrElse(data.stageId, ""),
      OrElse(data.stageName, ""),
      if data.active.Some? then data.active.value else true,
      OrElse(data.createdAt, now),
      OrElse(data.updatedAt, now))
  }

  /** `toObject()`: the plain object carrying exactly the ten fields. */
  function ToObject(m: Mapping): (o: MappingData)
    ensures o.userId.Some? && o.calendarId.Some? && o.calendarName.Some? && o.pipelineId.Some?
    ensures o.pipelineName.Some? && o.stageId.Some? && o.stageName.Some?
    ensures o.active == Some(m.active)
    ensures o.createdAt.Some? && o.updatedAt.Some?
    ensures Stamped(m) ==> forall now :: NewMapping(o, now) == m
  {
    MappingData(
      Some(m.userId), Some(m.calendarId), Some(m.calendarName),
      Some(m.pipelineId), Some(m.pipelineName), Some(m.stageId), Some(m.stageName),
      Some(m.active), Some(m.createdAt), Some(m.updatedAt))
  }

  /** `isValid()`: the user, calendar, pipeline and stage ids are all non-empty. */
  function IsValid(m: Mapping): (b: bool)
    ensures b <==> Truthy(ToObject(m).userId) && Truthy(ToObject(m).calendarId) &&
                   Truthy(ToObject(m).pipelineId) && Truthy(ToObject(m).stageId)
  {
    m.userId != "" && m.calendarId != "" && m.pipelineId != "" && m.stageId != ""
  }

  /** A mapping whose timestamps are set. */
  predicate Stamped(m: Mapping) {
    m.createdAt != "" && m.updatedAt != ""
  }

  /**
   * Rebuilding a mapping from its plain object reproduces it exactly when
   * its timestamps are set; an empty timestamp is replaced by the clock.
   */
  lemma ToObjectRoundTrip(m: Mapping, now: string)
    ensures Stamped(m) ==> NewMapping(ToObject(m), now) == m
    ensures NewMapping(ToObject(m), now) == m <==> (m.createdAt == "" ==> now == "") && (m.updatedAt == "" ==> now == "")
  {
  }

  /** A mapping built at a non-empty clock reading is stamped, so it survives the round trip. */
  lemma NewMappingIsStamped(data: MappingData, now: string)
    requires now != ""
    ensures Stamped(NewMapping(data, now))
    ensures NewMapping(ToObject(NewMapping(data, now)), now) == NewMapping(data, now)
  {
    ToObjectRoundTrip(NewMapping(data, now), now);
  }

  /** A built mapping is valid exactly when the four id fields were given non-empty. */
  lemma NewMappingValidIff(data: MappingData, now: string)
    ensures IsValid(NewMapping(data, now)) <==>
      Truthy(data.userId) && Truthy(data.calendarId) && Truthy(data.pipelineId) && Truthy(data.stageId)
  {
  }

  /** `new Mapping()`: every descriptive field empty, active, both timestamps the clock reading. */
  lemma EmptyMappingDefaults(now: string)
    ensures NewMapping(NoData, now) == Mapping("", "", "", "", "", "", "", true, now, now)
    ensures !IsValid(NewMapping(NoData, now))
  {
  }
}
