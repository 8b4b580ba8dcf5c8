/**
 * src/controllers/userController.js: the settings endpoints. Each handler
 * reads the session's user id, looks the user up, checks its inputs in a
 * fixed order and answers with the first failing check, or performs its
 * change and saves the user.
 *
 * The user files are a map from user id to user; a successful save writes
 * the user under its own id. The Google and Salesmap list calls, the save
 * and the clock are inputs.
 */
module UserController {
  import opened Js
  import opened Mappings
  import opened Users
  import opened Helpers
  import opened WebhookController

  /** The stored users, by the id their file is named after. */
  type Store = map<string, User>

  /** Every user is stored under its own id. */
  predicate Keyed(store: Store) {
    forall k :: k in store ==> store[k].id == k
  }

  /** Why a handler refused; each maps to the HTTP status it answers with. */
  datatype Refusal =
    | NotLoggedIn
    | MissingInput
    | NoUser
    | NoGoogleAuth
    | NoApiKey
    | InvalidApiKey
    | NoCalendar
    | NoPipeline
    | NoStage
    | NoMapping
    | ServerError
  {
    function Status(): nat {
      match this
      case NotLoggedIn => 401
      case MissingInput | NoGoogleAuth | NoApiKey | InvalidApiKey => 400
      case NoUser | NoCalendar | NoPipeline | NoStage | NoMapping => 404
      case ServerError => 500
    }
  }

  /** The JSON answer: `{ success: true, data }`, or a refusal. */
  datatype Reply<+T> = Done(data: T) | Refused(why: Refusal)

  /** A handler's answer and the stored users afterwards. */
  datatype Outcome<+T> = Outcome(reply: Reply<T>, store: Store)

  /** `User.findById(userId)`. */
  function FindUser(store: Store, userId: string): (u: Option<User>)
    ensures u.Some? <==> userId in store
    ensures u.Some? ==> u.value == store[userId]
  {
    if userId in store then Some(store[userId]) else None
  }

  /** `user.save()`: the user written under its own id, or the write error. */
  function Save(store: Store, u: User, saved: Result<()>): (r: Result<Store>)
    ensures r.Ok? <==> saved.Ok?
    ensures r.Ok? ==> r.value == store[u.id := u]
  {
    if saved.Ok? then Ok(store[u.id := u]) else Err(saved.message)
  }

  /** The answer to a change that ends with a save; a failed save is a server error and changes nothing. */
  function Commit<T>(store: Store, u: User, saved: Result<()>, data: T): (o: Outcome<T>)
    ensures saved.Ok? ==> o == Outcome(Done(data), store[u.id := u])
    ensures saved.Err? ==> o == Outcome(Refused(ServerError), store)
  {
    var r := Save(store, u, saved);
    if r.Ok? then Outcome(Done(data), r.value) else Outcome(Refused(ServerError), store)
  }

  // ---------------------------------------------------------------------
  // getUserInfo

  /** The user summary, without the tokens and the key themselves. */
  datatype UserInfo = UserInfo(
    id: string,
    email: string,
    name: string,
    hasGoogleAuth: bool,
    hasSalesmapApi: bool,
    mappingCount: nat,
    createdAt: string,
    updatedAt: string)

  /**
   * `getUserInfo`: 401 without a session user, 404 for an unknown user,
   * otherwise the summary: Google auth iff the access token is truthy, a
   * Salesmap key iff the key is non-empty, and the number of mappings.
   */
  function GetUserInfo(session: Option<string>, store: Store): (r: Reply<UserInfo>)
    ensures !Truthy(session) ==> r == Refused(NotLoggedIn)
    ensures Truthy(session) && session.value !in store ==> r == Refused(NoUser)
    ensures r.Done? <==> Truthy(session) && session.value in store
    ensures r.Done? ==>
      var u := store[session.value];
      && r.data.id == u.id
      && (r.data.hasGoogleAuth <==> Truthy(u.googleTokens.accessToken))
      && (r.data.hasSalesmapApi <==> u.salesmapApiKey != "")
      && r.data.mappingCount == |u.mappings|
  {
    if !Truthy(session) then Refused(NotLoggedIn)
    else
      var found := FindUser(store, session.value);
      if found.None? then Refused(NoUser)
      else
        var u := found.value;
        Done(UserInfo(u.id, u.email, u.name, Truthy(u.googleTokens.accessToken), u.salesmapApiKey != "",
                      |u.mappings|, u.createdAt, u.updatedAt))
  }

  // ---------------------------------------------------------------------
  // updateSalesmapApiKey

  /**
   * `updateSalesmapApiKey` at clock reading `now`. The checks, in order: a
   * session user (401), a non-empty key (400), a known user (404), and the
   * key accepted by the Salesmap pipeline listing, whose settled outcome is
   * `validated` (400). Only then is the key stored and the user saved.
   */
  function UpdateSalesmapApiKey(session: Option<string>, apiKey: Option<string>, store: Store,
                                validated: Result<()>, saved: Result<()>, now: string): (o: Outcome<()>)
    ensures o.reply.Refused? ==> o.store == store
    ensures !Truthy(session) ==> o.reply == Refused(NotLoggedIn)
    ensures Truthy(session) && !Truthy(apiKey) ==> o.reply == Refused(MissingInput)
    ensures Truthy(session) && Truthy(apiKey) && session.value !in store ==> o.reply == Refused(NoUser)
    ensures Truthy(session) && Truthy(apiKey) && session.value in store && validated.Err? ==>
      o.reply == Refused(InvalidApiKey)
    ensures o.reply.Done? <==> Truthy(session) && Truthy(apiKey) && session.value in store && validated.Ok? && saved.Ok?
    ensures o.reply.Done? ==>
      var u := store[session.value];
      o.store == store[u.id := u.(salesmapApiKey := apiKey.value, updatedAt := now)]
  {
    if !Truthy(session) then Outcome(Refused(NotLoggedIn), store)
    else if !Truthy(apiKey) then Outcome(Refused(MissingInput), store)
    else
      var found := FindUser(store, session.value);
      if found.None? then Outcome(Refused(NoUser), store)
      else if validated.Err? then Outcome(Refused(InvalidApiKey), store)
      else
        var u := found.value;
        Commit(store, u.(salesmapApiKey := apiKey.value, updatedAt := now), saved, ())
  }

  /** After the key is stored, the user summary reports a Salesmap key. */
  lemma ApiKeyShowsInUserInfo(session: Option<string>, apiKey: Option<string>, store: Store,
                              validated: Result<()>, saved: Result<()>, now: string)
    requires Keyed(store)
    requires UpdateSalesmapApiKey(session, apiKey, store, validated, saved, now).reply.Done?
    ensures var o := UpdateSalesmapApiKey(session, apiKey, store, validated, saved, now);
      && GetUserInfo(session, o.store).Done?
      && GetUserInfo(session, o.store).data.hasSalesmapApi
      && GetUserInfo(session, o.store).data.mappingCount == |store[session.value].mappings|
  {
    var u := store[session.value];
    assert u.id == session.value;
  }

  // ---------------------------------------------------------------------
  // getMappings

  /** `getMappings`: 401 without a session user, 404 for an unknown user, otherwise the stored list. */
  function GetMappings(session: Option<string>, store: Store): (r: Reply<seq<MappingData>>)
    ensures r.Done? <==> Truthy(session) && session.value in store
    ensures !Truthy(session) ==> r == Refused(NotLoggedIn)
    ensures r.Refused? && Truthy(session) ==> r == Refused(NoUser)
    ensures r.Done? ==> r.data == store[session.value].mappings
  {
    if !Truthy(session) then Refused(NotLoggedIn)
    else
      var found := FindUser(store, session.value);
      if found.None? then Refused(NoUser) else Done(found.value.mappings)
  }

  // ---------------------------------------------------------------------
  // addOrUpdateMapping

  /** The fields of a Google calendar list entry this system reads. */
  datatype Calendar = Calendar(
    id: Option<string>,
    summary: Option<string>,
    description: Option<string>,
    primary: Option<bool>,
    backgroundColor: Option<string>)

  /** A Salesmap pipeline stage. */
  datatype Stage = Stage(id: Option<string>, name: Option<string>)

  /** A Salesmap pipeline; its stage list may be missing. */
  datatype Pipeline = Pipeline(id: Option<string>, name: Option<string>, stages: Option<seq<Stage>>)

  /** The request body of `addOrUpdateMapping`. */
  datatype MappingRequest = MappingRequest(calendarId: Option<string>, pipelineId: Option<string>, stageId: Option<string>)

  /** The three ids are all given and non-empty. */
  predicate Complete(req: MappingRequest) {
    Truthy(req.calendarId) && Truthy(req.pipelineId) && Truthy(req.stageId)
  }

  /** The session names a stored user who has Google tokens and a Salesmap key. */
  predicate Connected(session: Option<string>, store: Store) {
    Truthy(session) && session.value in store
    && Truthy(store[session.value].googleTokens.accessToken) && store[session.value].salesmapApiKey != ""
  }

  /** The mapping built from the found calendar, pipeline and stage, marked active. */
  function MappingFor(u: User, cal: Calendar, pipe: Pipeline, stage: Stage, now: string): (m: Mapping)
    ensures m.userId == u.id && m.active
    ensures m.calendarId == cal.id.GetOr("") && m.calendarName == cal.summary.GetOr("")
    ensures m.pipelineId == pipe.id.GetOr("") && m.pipelineName == pipe.name.GetOr("")
    ensures m.stageId == stage.id.GetOr("") && m.stageName == stage.name.GetOr("")
  {
    NewMapping(MappingData(Some(u.id), cal.id, cal.summary, pipe.id, pipe.name, stage.id, stage.name,
                           Some(true), None, None), now)
  }

  /**
   * `addOrUpdateMapping` at clock reading `now`, given how the calendar and
   * pipeline listings and the save settle. The checks, in order: a session
   * user (401); all three ids (400); a known user (404); a Google access
   * token (400); a Salesmap key (400); both listings (500 if either fails);
   * the calendar (404); the pipeline (404); the stage, looked up only in that
   * pipeline's stage list (404; 500 if the pipeline has none). Then the
   * mapping is upserted and the user saved.
   */
  function AddOrUpdateMapping(session: Option<string>, req: MappingRequest, store: Store,
                              calendars: Result<seq<Calendar>>, pipelines: Result<seq<Pipeline>>,
                              saved: Result<()>, now: string): (o: Outcome<MappingData>)
    ensures o.reply.Refused? ==> o.store == store
    ensures !Truthy(session) ==> o.reply == Refused(NotLoggedIn)
    ensures Truthy(session) && !Complete(req) ==> o.reply == Refused(MissingInput)
    ensures Truthy(session) && Complete(req) && session.value !in store ==> o.reply == Refused(NoUser)
    ensures Truthy(session) && Complete(req) && session.value in store &&
            !Truthy(store[session.value].googleTokens.accessToken) ==>
      o.reply == Refused(NoGoogleAuth)
    ensures Truthy(session) && Complete(req) && session.value in store &&
            Truthy(store[session.value].googleTokens.accessToken) && store[session.value].salesmapApiKey == "" ==>
      o.reply == Refused(NoApiKey)
    ensures Connected(session, store) && Complete(req) && (calendars.Err? || pipelines.Err?) ==>
      o.reply == Refused(ServerError)
    ensures Connected(session, store) && Complete(req) && calendars.Ok? && pipelines.Ok? &&
            (forall k :: 0 <= k < |calendars.value| ==> calendars.value[k].id != req.calendarId) ==>
      o.reply == Refused(NoCalendar)
    ensures o.reply.Done? ==>
      && Connected(session, store) && Complete(req) && calendars.Ok? && pipelines.Ok? && saved.Ok?
      && o.reply.data.active == Some(true)
      && o.reply.data.calendarId == req.calendarId
      && o.reply.data.pipelineId == req.pipelineId
      && o.reply.data.stageId == req.stageId
      && o.reply.data.userId == Some(store[session.value].id)
      && (exists k :: 0 <= k < |calendars.value| && calendars.value[k].id == req.calendarId)
      && (exists k :: 0 <= k < |pipelines.value| && pipelines.value[k].id == req.pipelineId)
    ensures o.reply.Done? ==>
      var u := store[session.value];
      o.store == store[u.id := Users.AddOrUpdateMapping(u, o.reply.data, now)]
  {
    if !Truthy(session) then Outcome(Refused(NotLoggedIn), store)
    else if !Complete(req) then Outcome(Refused(MissingInput), store)
    else
      var found := FindUser(store, session.value);
      if found.None? then Outcome(Refused(NoUser), store)
      else
        var u := found.value;
        if !Truthy(u.googleTokens.accessToken) then Outcome(Refused(NoGoogleAuth), store)
        else if u.salesmapApiKey == "" then Outcome(Refused(NoApiKey), store)
        else if calendars.Err? || pipelines.Err? then Outcome(Refused(ServerError), store)
        else
          var cal := Find(calendars.value, (c: Calendar) => c.id == req.calendarId);
          if cal.None? then Outcome(Refused(NoCalendar), store)
          else
            var pipe := Find(pipelines.value, (p: Pipeline) => p.id == req.pipelineId);
            if pipe.None? then Outcome(Refused(NoPipeline), store)
            else if pipe.value.stages.None? then Outcome(Refused(ServerError), store)
            else
              var stage := Find(pipe.value.stages.value, (s: Stage) => s.id == req.stageId);
              if stage.None? then Outcome(Refused(NoStage), store)
              else
                var m := ToObject(MappingFor(u, cal.value, pipe.value, stage.value, now));
                Commit(store, Users.AddOrUpdateMapping(u, m, now), saved, m)
  }

  /**
   * The pipeline and stage checks: with everything before them passed, the
   * answer is 404 for an unknown pipeline, and otherwise 404 exactly when the
   * FIRST pipeline with the id has a stage list without the stage.
   */
  lemma AddMappingStageLookup(session: Option<string>, req: MappingRequest, store: Store,
                              cals: seq<Calendar>, pipes: seq<Pipeline>, saved: Result<()>, now: string)
    requires Connected(session, store) && Complete(req)
    requires exists k :: 0 <= k < |cals| && cals[k].id == req.calendarId
    ensures (forall k :: 0 <= k < |pipes| ==> pipes[k].id != req.pipelineId) ==>
      AddOrUpdateMapping(session, req, store, Ok(cals), Ok(pipes), saved, now).reply == Refused(NoPipeline)
    ensures forall i :: 0 <= i < |pipes| && pipes[i].id == req.pipelineId && pipes[i].stages.Some? &&
                        (forall k :: 0 <= k < i ==> pipes[k].id != req.pipelineId) ==>
      (AddOrUpdateMapping(session, req, store, Ok(cals), Ok(pipes), saved, now).reply == Refused(NoStage) <==>
       forall k :: 0 <= k < |pipes[i].stages.value| ==> pipes[i].stages.value[k].id != req.stageId)
    ensures forall i :: 0 <= i < |pipes| && pipes[i].id == req.pipelineId && pipes[i].stages.None? &&
                        (forall k :: 0 <= k < i ==> pipes[k].id != req.pipelineId) ==>
      AddOrUpdateMapping(session, req, store, Ok(cals), Ok(pipes), saved, now) == Outcome(Refused(ServerError), store)
  {
    var pipe := Find(pipes, (p: Pipeline) => p.id == req.pipelineId);
    forall i | 0 <= i < |pipes| && pipes[i].id == req.pipelineId &&
               (forall k :: 0 <= k < i ==> pipes[k].id != req.pipelineId)
      ensures pipe == Some(pipes[i])
    {
      var j :| 0 <= j < |pipes| && pipes[j] == pipe.value && forall k :: 0 <= k < j ==> pipes[k].id != req.pipelineId;
      assert j == i;
    }
  }

  /** The first pipeline with the requested id has a stage list holding the requested stage. */
  ghost predicate FirstPipelineHasStage(pipes: seq<Pipeline>, req: MappingRequest) {
    exists j :: 0 <= j < |pipes| && pipes[j].id == req.pipelineId
      && (forall k :: 0 <= k < j ==> pipes[k].id != req.pipelineId)
      && pipes[j].stages.Some?
      && exists l :: 0 <= l < |pipes[j].stages.value| && pipes[j].stages.value[l].id == req.stageId
  }

  /**
   * A request that passes every check is answered by the save: when the
   * save succeeds the mapping is upserted into the user and stored, and when
   * it fails the answer is 500 and nothing changes.
   */
  lemma AddMappingStoresWhenChecksPass(session: Option<string>, req: MappingRequest, store: Store,
                                       cals: seq<Calendar>, pipes: seq<Pipeline>, saved: Result<()>, now: string)
    requires Connected(session, store) && Complete(req)
    requires exists k :: 0 <= k < |cals| && cals[k].id == req.calendarId
    requires FirstPipelineHasStage(pipes, req)
    ensures var o := AddOrUpdateMapping(session, req, store, Ok(cals), Ok(pipes), saved, now);
      var u := store[session.value];
      saved.Ok? ==> o.reply.Done? && o.store == store[u.id := Users.AddOrUpdateMapping(u, o.reply.data, now)]
    ensures saved.Err? ==>
      AddOrUpdateMapping(session, req, store, Ok(cals), Ok(pipes), saved, now) == Outcome(Refused(ServerError), store)
  {
    var pipe := Find(pipes, (p: Pipeline) => p.id == req.pipelineId);
    var j :| 0 <= j < |pipes| && pipes[j].id == req.pipelineId
      && (forall k :: 0 <= k < j ==> pipes[k].id != req.pipelineId)
      && pipes[j].stages.Some?
      && exists l :: 0 <= l < |pipes[j].stages.value| && pipes[j].stages.value[l].id == req.stageId;
    var i :| 0 <= i < |pipes| && pipes[i] == pipe.value && forall k :: 0 <= k < i ==> pipes[k].id != req.pipelineId;
    assert i == j;
  }

  /**
   * A saved mapping carries the names `find` picks: the summary of the first
   * listed calendar with the requested id, the name of the first pipeline
   * with the requested id, and the name of the first stage with the
   * requested id in that pipeline's stage list.
   */
  lemma AddMappingCopiesFoundNames(session: Option<string>, req: MappingRequest, store: Store,
                                   cals: seq<Calendar>, pipes: seq<Pipeline>, saved: Result<()>, now: string)
    requires AddOrUpdateMapping(session, req, store, Ok(cals), Ok(pipes), saved, now).reply.Done?
    ensures var d := AddOrUpdateMapping(session, req, store, Ok(cals), Ok(pipes), saved, now).reply.data;
      exists i :: 0 <= i < |cals| && cals[i].id == req.calendarId
        && (forall k :: 0 <= k < i ==> cals[k].id != req.calendarId)
        && d.calendarName == Some(cals[i].summary.GetOr(""))
    ensures var d := AddOrUpdateMapping(session, req, store, Ok(cals), Ok(pipes), saved, now).reply.data;
      exists j :: 0 <= j < |pipes| && pipes[j].id == req.pipelineId
        && (forall k :: 0 <= k < j ==> pipes[k].id != req.pipelineId)
        && d.pipelineName == Some(pipes[j].name.GetOr(""))
        && pipes[j].stages.Some?
        && StageNameIsFirstMatch(pipes[j].stages.value, req.stageId, d.stageName)
  {
    var cal := Find(cals, (c: Calendar) => c.id == req.calendarId);
    var pipe := Find(pipes, (p: Pipeline) => p.id == req.pipelineId);
    var stages := pipe.value.stages.value;
    var stage := Find(stages, (s: Stage) => s.id == req.stageId);
    var i :| 0 <= i < |cals| && cals[i] == cal.value && forall k :: 0 <= k < i ==> cals[k].id != req.calendarId;
    var j :| 0 <= j < |pipes| && pipes[j] == pipe.value && forall k :: 0 <= k < j ==> pipes[k].id != req.pipelineId;
    var l :| 0 <= l < |stages| && stages[l] == stage.value && forall k :: 0 <= k < l ==> stages[k].id != req.stageId;
    assert cals[i].id == req.calendarId;
    assert pipes[j].id == req.pipelineId;
    assert stages[l].id == req.stageId;
  }

  /** `name` is the name of the first stage in `stages` with id `stageId`. */
  ghost predicate StageNameIsFirstMatch(stages: seq<Stage>, stageId: Option<string>, name: Option<string>) {
    exists l :: 0 <= l < |stages| && stages[l].id == stageId
      && (forall k :: 0 <= k < l ==> stages[k].id != stageId)
      && name == Some(stages[l].name.GetOr(""))
  }

  /**
   * The mapping an upsert stores as active is the one the notification
   * handler then finds for that calendar: upsert replaces the first entry
   * with the calendar id, and the handler takes the first active one.
   */
  lemma {:induction false} UpsertedMappingIsFoundActive(ms: seq<MappingData>, incoming: MappingData, now: string)
    requires incoming.active == Some(true)
    ensures var found := FindActive(UpsertMapping(ms, incoming, now), incoming.calendarId);
      && found.Some?
      && (incoming.stageId.Some? ==> found.value.stageId == incoming.stageId)
  {
    var r := UpsertMapping(ms, incoming, now);
    var i := FindIndex(r, incoming.calendarId);
    UpsertThenFind(ms, incoming, now);
    assert IsActiveFor(r[i], incoming.calendarId);
    var found := FindActive(r, incoming.calendarId);
    var j :| 0 <= j < |r| && r[j] == found.value && forall k :: 0 <= k < j ==> !IsActiveFor(r[k], incoming.calendarId);
    assert j <= i;
    assert found.value.calendarId == incoming.calendarId;
    assert j >= i;
  }

  /**
   * End to end: once a mapping is saved for a calendar, a change notification
   * for a tagged event on that calendar, attributed to that user, moves the
   * deal to the mapped stage with the user's key.
   */
  lemma SavedMappingDrivesDealUpdate(session: Option<string>, req: MappingRequest, store: Store,
                                     calendars: Result<seq<Calendar>>, pipelines: Result<seq<Pipeline>>,
                                     saved: Result<()>, now: string,
                                     decode: Reader, dealIdOf: Reader, n: Notification, w: World)
    requires Keyed(store)
    requires AddOrUpdateMapping(session, req, store, calendars, pipelines, saved, now).reply.Done?
    requires w.users == AddOrUpdateMapping(session, req, store, calendars, pipelines, saved, now).store
    requires n.resourceState == Some("exists") && decode(n.channelId) == session
    requires w.fetched.Ok? && EventCalendarId(w.fetched.value) == req.calendarId
    requires Truthy(dealIdOf(w.fetched.value.description))
    ensures var h := Handle(decode, dealIdOf, n, w);
      && |h.effects| == 4
      && h.effects[3] == UpdateDeal(store[session.value].salesmapApiKey,
                                    dealIdOf(w.fetched.value.description).value, req.stageId)
  {
    var o := AddOrUpdateMapping(session, req, store, calendars, pipelines, saved, now);
    var u := store[session.value];
    assert u.id == session.value;
    var v := w.users[session.value];
    assert v.mappings == UpsertMapping(u.mappings, o.reply.data, now);
    UpsertedMappingIsFoundActive(u.mappings, o.reply.data, now);
    assert Actionable(decode, dealIdOf, n, w);
    ActionableEffects(decode, dealIdOf, n, w);
  }

  // ---------------------------------------------------------------------
  // deleteMapping

  /**
   * `deleteMapping` at clock reading `now`. The checks, in order: a session
   * user (401), a non-empty calendar id (400), a known user (404), and some
   * mapping with that calendar id (404). Then every such mapping is removed
   * and the user saved.
   */
  function DeleteMapping(session: Option<string>, calendarId: Option<string>, store: Store,
                         saved: Result<()>, now: string): (o: Outcome<()>)
    ensures o.reply.Refused? ==> o.store == store
    ensures !Truthy(session) ==> o.reply == Refused(NotLoggedIn)
    ensures Truthy(session) && !Truthy(calendarId) ==> o.reply == Refused(MissingInput)
    ensures Truthy(session) && Truthy(calendarId) && session.value !in store ==> o.reply == Refused(NoUser)
    ensures Truthy(session) && Truthy(calendarId) && session.value in store ==>
      (o.reply == Refused(NoMapping) <==> !HasCalendar(store[session.value].mappings, calendarId))
    ensures o.reply.Done? <==>
      Truthy(session) && Truthy(calendarId) && session.value in store &&
      HasCalendar(store[session.value].mappings, calendarId) && saved.Ok?
    ensures o.reply.Done? ==>
      var u := store[session.value];
      && o.store == store[u.id := u.(mappings := Users.DeleteMapping(u.mappings, calendarId), updatedAt := now)]
      && |o.store[u.id].mappings| < |u.mappings|
  {
    if !Truthy(session) then Outcome(Refused(NotLoggedIn), store)
    else if !Truthy(calendarId) then Outcome(Refused(MissingInput), store)
    else
      var found := FindUser(store, session.value);
      if found.None? then Outcome(Refused(NoUser), store)
      else
        var u := found.value;
        if !HasCalendar(u.mappings, calendarId) then Outcome(Refused(NoMapping), store)
        else
          DeleteShrinks(u.mappings, calendarId);
          Commit(store, DeleteUserMapping(u, calendarId.value, now), saved, ())
  }

  /** Deleting a calendar id that some entry carries removes at least that entry. */
  lemma {:induction false} DeleteShrinks(ms: seq<MappingData>, calendarId: Option<string>)
    requires HasCalendar(ms, calendarId)
    ensures |Users.DeleteMapping(ms, calendarId)| < |ms|
    decreases |ms|
  {
    if ms[0].calendarId != calendarId {
      var k :| 0 <= k < |ms| && ms[k].calendarId == calendarId;
      assert ms[1..][k - 1].calendarId == calendarId;
      DeleteShrinks(ms[1..], calendarId);
    }
  }

  /**
   * After a deletion, no notification for that calendar reaches the deal
   * update for that user, whatever the event says.
   */
  lemma DeletedMappingStopsDealUpdates(session: Option<string>, calendarId: Option<string>, store: Store,
                                       saved: Result<()>, now: string,
                                       decode: Reader, dealIdOf: Reader, n: Notification, w: World)
    requires Keyed(store)
    requires DeleteMapping(session, calendarId, store, saved, now).reply.Done?
    requires w.users == DeleteMapping(session, calendarId, store, saved, now).store
    requires decode(n.channelId) == session
    requires w.fetched.Ok? && EventCalendarId(w.fetched.value) == calendarId
    ensures !UpdatesDeal(Handle(decode, dealIdOf, n, w))
  {
    var u := store[session.value];
    assert u.id == session.value;
    var ms := w.users[session.value].mappings;
    assert !HasCalendar(ms, calendarId);
    assert FindActive(ms, calendarId).None?;
    UpdateIffActionable(decode, dealIdOf, n, w);
  }

  // ---------------------------------------------------------------------
  // getUserCalendars and getPipelines

  /** One entry of the calendar list sent to the settings page. */
  datatype CalendarEntry = CalendarEntry(
    id: Option<string>,
    summary: Option<string>,
    description: Option<string>,
    primary: bool,
    backgroundColor: Option<string>)

  /** The entry for one listed calendar: `primary` only when the flag is exactly `true`. */
  function EntryOf(c: Calendar): (e: CalendarEntry)
    ensures e.primary <==> c.primary == Some(true)
    ensures e.id == c.id && e.summary == c.summary
  {
    CalendarEntry(c.id, c.summary, c.description, c.primary == Some(true), c.backgroundColor)
  }

  /** `calendars.map(...)`: one entry per listed calendar, in order. */
  function Entries(cs: seq<Calendar>): (es: seq<CalendarEntry>)
    ensures |es| == |cs|
    ensures forall k :: 0 <= k < |cs| ==> es[k] == EntryOf(cs[k])
    decreases |cs|
  {
    if |cs| == 0 then [] else [EntryOf(cs[0])] + Entries(cs[1..])
  }

  /**
   * `getUserCalendars`: 401, 404, 400 without a Google access token, 500
   * when the listing fails, otherwise one entry per listed calendar.
   */
  function GetUserCalendars(session: Option<string>, store: Store, listed: Result<seq<Calendar>>): (r: Reply<seq<CalendarEntry>>)
    ensures !Truthy(session) ==> r == Refused(NotLoggedIn)
    ensures Truthy(session) && session.value !in store ==> r == Refused(NoUser)
    ensures Truthy(session) && session.value in store && !Truthy(store[session.value].googleTokens.accessToken) ==>
      r == Refused(NoGoogleAuth)
    ensures r.Done? <==>
      Truthy(session) && session.value in store && Truthy(store[session.value].googleTokens.accessToken) && listed.Ok?
    ensures Truthy(session) && session.value in store && Truthy(store[session.value].googleTokens.accessToken) && listed.Err? ==>
      r == Refused(ServerError)
    ensures r.Done? ==>
      && |r.data| == |listed.value|
      && forall k :: 0 <= k < |r.data| ==>
           r.data[k].id == listed.value[k].id && (r.data[k].primary <==> listed.value[k].primary == Some(true))
  {
    if !Truthy(session) then Refused(NotLoggedIn)
    else
      var found := FindUser(store, session.value);
      if found.None? then Refused(NoUser)
      else if !Truthy(found.value.googleTokens.accessToken) then Refused(NoGoogleAuth)
      else if listed.Err? then Refused(ServerError)
      else Done(Entries(listed.value))
  }

  /**
   * `getPipelines`: 401, 404, 400 without a Salesmap key, 500 when the
   * listing fails, otherwise the listed pipelines.
   */
  function GetPipelines(session: Option<string>, store: Store, listed: Result<seq<Pipeline>>): (r: Reply<seq<Pipeline>>)
    ensures !Truthy(session) ==> r == Refused(NotLoggedIn)
    ensures Truthy(session) && session.value !in store ==> r == Refused(NoUser)
    ensures Truthy(session) && session.value in store && store[session.value].salesmapApiKey == "" ==>
      r == Refused(NoApiKey)
    ensures r.Done? <==>
      Truthy(session) && session.value in store && store[session.value].salesmapApiKey != "" && listed.Ok?
    ensures Truthy(session) && session.value in store && store[session.value].salesmapApiKey != "" && listed.Err? ==>
      r == Refused(ServerError)
    ensures r.Done? ==> r.data == listed.value
  {
    if !Truthy(session) then Refused(NotLoggedIn)
    else
      var found := FindUser(store, session.value);
      if found.None? then Refused(NoUser)
      else if found.value.salesmapApiKey == "" then Refused(NoApiKey)
      else if listed.Err? then Refused(ServerError)
      else Done(listed.value)
  }
}
