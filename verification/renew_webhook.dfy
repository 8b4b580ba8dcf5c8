/**
 * src/scripts/renewWebhook.js: replacing the stored watch channel before it
 * expires. The flow is load, conditional stop, setup, persist. The stored
 * channel file, the gateway calls and the file write are inputs; the run
 * returns the calls it makes, in order, its outcome and the file afterwards.
 */
module RenewWebhook {
  import opened Js
  import opened Users
  import opened GoogleCalendar

  /**
   * The stored channel record: the channel and resource ids, the ISO time it
   * was written and the expiry in milliseconds. Fields read back from JSON
   * may be missing.
   */
  datatype Info = Info(channelId: Option<string>, resourceId: Option<string>,
                       createdAt: Option<string>, expiration: Option<nat>)

  /** The info file: absent, present but unreadable or not JSON, or read. */
  datatype InfoFile = Missing | Unreadable | Present(info: Info)

  /** A call the renewal makes, in order. */
  datatype Step =
    | StopOld(stop: StopRequest)
    | WatchNew(watch: WatchRequest)
    | Persist(info: Info)

  /** How the renewal ends: the new channel, or the error it rethrows. */
  datatype Outcome = Renewed(channel: WatchResponse) | Failed(message: string)

  datatype Renewal = Renewal(steps: seq<Step>, outcome: Outcome, file: InfoFile)

  /**
   * How the setup call goes: the watch request it sends, if it gets as far
   * as sending one, and how it settles.
   */
  datatype Attempt = Attempt(sent: Option<WatchRequest>, result: Result<WatchResponse>)

  /** The old channel and resource ids; an absent or unreadable file gives neither. */
  function OldIds(file: InfoFile): (ids: (Option<string>, Option<string>))
    ensures !file.Present? ==> ids == (None, None)
    ensures file.Present? ==> ids.0 == file.info.channelId && ids.1 == file.info.resourceId
  {
    if file.Present? then (file.info.channelId, file.info.resourceId) else (None, None)
  }

  /** What a successful setup leaves in the file, written at ISO time `createdAt`. */
  function NewInfo(channel: WatchResponse, createdAt: string): (info: Info)
    ensures info.channelId == Some(channel.id) && info.resourceId == Some(channel.resourceId)
    ensures info.createdAt == Some(createdAt) && info.expiration == Some(channel.expiration)
  {
    Info(Some(channel.id), Some(channel.resourceId), Some(createdAt), Some(channel.expiration))
  }

  /**
   * The renewal flow. `stopRequest` says how the stop call is addressed from
   * the old channel and resource ids; `stopped` is how it settles, and is
   * ignored either way. A failed setup or a failed write is rethrown and
   * leaves the file as it was.
   */
  function RenewWith(file: InfoFile, stopRequest: (string, string) -> StopRequest, stopped: Result<()>,
                     attempt: Attempt, written: Result<()>, createdAt: string): (r: Renewal)
    ensures r.outcome.Renewed? <==> attempt.result.Ok? && written.Ok?
    ensures r.outcome.Failed? ==> r.file == file
    ensures r.outcome.Renewed? ==> r.file == Present(NewInfo(attempt.result.value, createdAt))
    ensures attempt.sent.Some? ==> WatchNew(attempt.sent.value) in r.steps
    ensures attempt.sent.None? ==> forall i :: 0 <= i < |r.steps| ==> !r.steps[i].WatchNew?
  {
    var ids := OldIds(file);
    var stops := if Truthy(ids.0) && Truthy(ids.1) then [StopOld(stopRequest(ids.0.value, ids.1.value))] else [];
    var sends := if attempt.sent.Some? then stops + [WatchNew(attempt.sent.value)] else stops;
    if attempt.result.Err? then Renewal(sends, Failed(attempt.result.message), file)
    else
      var info := NewInfo(attempt.result.value, createdAt);
      if written.Err? then Renewal(sends + [Persist(info)], Failed(written.message), file)
      else Renewal(sends + [Persist(info)], Renewed(attempt.result.value), Present(info))
  }

  /** Whether the run holds a stop call. */
  predicate Stops(r: Renewal) {
    exists i :: 0 <= i < |r.steps| && r.steps[i].StopOld?
  }

  /**
   * The stop call is made exactly when the file was read and holds both a
   * non-empty channel id and a non-empty resource id; then it is the first
   * call, made once, with those two ids.
   */
  lemma StopIffBothIds(file: InfoFile, stopRequest: (string, string) -> StopRequest, stopped: Result<()>,
                       attempt: Attempt, written: Result<()>, createdAt: string)
    ensures var r := RenewWith(file, stopRequest, stopped, attempt, written, createdAt);
      Stops(r) <==> file.Present? && Truthy(file.info.channelId) && Truthy(file.info.resourceId)
    ensures var r := RenewWith(file, stopRequest, stopped, attempt, written, createdAt);
      Stops(r) ==> r.steps[0] == StopOld(stopRequest(file.info.channelId.value, file.info.resourceId.value))
    ensures var r := RenewWith(file, stopRequest, stopped, attempt, written, createdAt);
      forall i :: 0 < i < |r.steps| ==> !r.steps[i].StopOld?
  {
    var r := RenewWith(file, stopRequest, stopped, attempt, written, createdAt);
    if file.Present? && Truthy(file.info.channelId) && Truthy(file.info.resourceId) {
      assert r.steps[0].StopOld?;
    }
  }

  /** An absent file and an unreadable one are treated alike: no stop, the same calls, the same outcome. */
  lemma UnreadableIsLikeMissing(stopRequest: (string, string) -> StopRequest, stopped: Result<()>,
                                attempt: Attempt, written: Result<()>, createdAt: string)
    ensures var m := RenewWith(Missing, stopRequest, stopped, attempt, written, createdAt);
      var u := RenewWith(Unreadable, stopRequest, stopped, attempt, written, createdAt);
      && m.steps == u.steps && m.outcome == u.outcome
      && forall i :: 0 <= i < |m.steps| ==> !m.steps[i].StopOld?
  {
  }

  /** How the stop call settles changes nothing: a failed stop is swallowed. */
  lemma StopFailureIsSwallowed(file: InfoFile, stopRequest: (string, string) -> StopRequest, failure: string,
                               attempt: Attempt, written: Result<()>, createdAt: string)
    ensures RenewWith(file, stopRequest, Err(failure), attempt, written, createdAt) ==
            RenewWith(file, stopRequest, Ok(()), attempt, written, createdAt)
  {
  }

  /** The old channel is stopped before the new one is requested, and the write is the last call. */
  lemma StopBeforeSetup(file: InfoFile, stopRequest: (string, string) -> StopRequest, stopped: Result<()>,
                        attempt: Attempt, written: Result<()>, createdAt: string)
    ensures var r := RenewWith(file, stopRequest, stopped, attempt, written, createdAt);
      forall i, j :: 0 <= i < |r.steps| && 0 <= j < |r.steps| && r.steps[i].StopOld? && r.steps[j].WatchNew? ==> i < j
    ensures var r := RenewWith(file, stopRequest, stopped, attempt, written, createdAt);
      forall j :: 0 <= j < |r.steps| && r.steps[j].Persist? ==> j == |r.steps| - 1
  {
    StopIffBothIds(file, stopRequest, stopped, attempt, written, createdAt);
  }

  /**
   * The file changes exactly when the run succeeds, and then it holds the new
   * channel id, resource id, write time and expiry; on failure the error is
   * the setup's, or else the write's.
   */
  lemma FileChangesOnlyOnSuccess(file: InfoFile, stopRequest: (string, string) -> StopRequest, stopped: Result<()>,
                                 attempt: Attempt, written: Result<()>, createdAt: string)
    ensures var r := RenewWith(file, stopRequest, stopped, attempt, written, createdAt);
      r.outcome.Renewed? <==> attempt.result.Ok? && written.Ok?
    ensures var r := RenewWith(file, stopRequest, stopped, attempt, written, createdAt);
      r.outcome.Failed? ==> r.file == file
    ensures var r := RenewWith(file, stopRequest, stopped, attempt, written, createdAt);
      attempt.result.Err? ==> r.outcome == Failed(attempt.result.message) && forall i :: 0 <= i < |r.steps| ==> !r.steps[i].Persist?
    ensures var r := RenewWith(file, stopRequest, stopped, attempt, written, createdAt);
      r.outcome.Renewed? ==>
        var c := attempt.result.value;
        && r.outcome.channel == c
        && r.file == Present(Info(Some(c.id), Some(c.resourceId), Some(createdAt), Some(c.expiration)))
  {
  }

  // ---------------------------------------------------------------------
  // As written

  /** The error `setupWebhook()` throws: the name is not exported by the calendar service. */
  const SetupWebhookMissing: string := "setupWebhook is not a function"

  /**
   * `renewWebhook` as written. `stopWebhook(oldChannelId, oldResourceId)`
   * passes the channel id where the tokens go and the resource id where the
   * channel id goes, leaving the resource id undefined; `setupWebhook` is
   * undefined, so the setup throws before any request is sent.
   */
  function RenewWebhook(file: InfoFile, stopped: Result<()>, written: Result<()>, createdAt: string): (r: Renewal)
    ensures r.outcome == Failed(SetupWebhookMissing) && r.file == file
    ensures forall i :: 0 <= i < |r.steps| ==> !r.steps[i].WatchNew?
  {
    RenewWith(file, (c: string, res: string) => StopRequest(Stray(Some(c)), Some(res), None), stopped,
              Attempt(None, Err(SetupWebhookMissing)), written, createdAt)
  }

  /** As written, renewal never succeeds, never requests a channel and never changes the file. */
  lemma RenewalAlwaysFails(file: InfoFile, stopped: Result<()>, written: Result<()>, createdAt: string)
    ensures var r := RenewWebhook(file, stopped, written, createdAt);
      && r.outcome == Failed(SetupWebhookMissing)
      && r.file == file
      && forall i :: 0 <= i < |r.steps| ==> r.steps[i].StopOld?
  {
  }

  /**
   * As written, the stop call for a stored channel carries the channel id as
   * its credentials, the resource id as its channel id, and no resource id.
   */
  lemma StopArgumentsShifted(info: Info, stopped: Result<()>, written: Result<()>, createdAt: string)
    requires Truthy(info.channelId) && Truthy(info.resourceId)
    ensures var r := RenewWebhook(Present(info), stopped, written, createdAt);
      && |r.steps| == 1
      && r.steps[0] == StopOld(StopRequest(Stray(info.channelId), info.resourceId, None))
  {
  }

  // ---------------------------------------------------------------------
  // Corrected

  /**
   * Corrected renewal: the old channel is stopped with the user's tokens and
   * its own ids, and the new one is requested through `setupWebhookForUser`
   * at clock reading `now`; `watched` is how `events.watch` settles.
   */
  function RenewWebhookCorrected(file: InfoFile, tokens: Tokens, userId: string, calendarId: Option<string>,
                                 now: nat, address: Option<string>, stopped: Result<()>,
                                 watched: Result<WatchResponse>, written: Result<()>, createdAt: string): (r: Renewal)
    ensures r.outcome.Renewed? <==> watched.Ok? && written.Ok?
    ensures r.outcome.Failed? ==> r.file == file
    ensures WatchNew(WatchRequestFor(userId, calendarId, now, address)) in r.steps
  {
    var setup := SetupWebhookForUser(userId, calendarId, now, address, watched);
    RenewWith(file, (c: string, res: string) => StopRequest(OAuth(tokens), Some(c), Some(res)), stopped,
              Attempt(Some(setup.request), setup.result), written, createdAt)
  }

  /**
   * Corrected: a stored channel is stopped with its own ids, then a channel
   * for the user is requested; when the request and the write succeed the
   * file holds the new channel.
   */
  lemma CorrectedRenewalReplacesChannel(info: Info, tokens: Tokens, userId: string, calendarId: Option<string>,
                                        now: nat, address: Option<string>, stopped: Result<()>,
                                        channel: WatchResponse, createdAt: string)
    requires Truthy(info.channelId) && Truthy(info.resourceId)
    ensures var r := RenewWebhookCorrected(Present(info), tokens, userId, calendarId, now, address, stopped,
                                           Ok(channel), Ok(()), createdAt);
      && |r.steps| == 3
      && r.steps[0] == StopOld(StopRequest(OAuth(tokens), info.channelId, info.resourceId))
      && r.steps[1] == WatchNew(WatchRequestFor(userId, calendarId, now, address))
      && r.steps[1].watch.channelId == ChannelIdFor(userId, now)
      && r.outcome == Renewed(channel)
      && r.file.Present? && r.file.info.channelId == Some(channel.id) && r.file.info.resourceId == Some(channel.resourceId)
  {
  }
}
