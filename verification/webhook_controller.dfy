/**
 * src/controllers/webhookController.js: decoding an inbound push
 * notification and reconciling it into a deal stage update, and the
 * per-calendar result list of the manual webhook setup.
 *
 * The handler is a pure function of the notification headers and of the
 * settled outcomes of the calls it makes (user lookup, event fetch, deal
 * update). Its effects come out as an ordered trace; the acknowledgement is
 * the first entry, and everything after it is the processing phase.
 */
module WebhookController {
  import opened Js
  import opened Text
  import opened Mappings
  import opened Users
  import opened Helpers
  import opened GoogleCalendar

  // ---------------------------------------------------------------------
  // Decoding the headers

  /**
   * `extractUserIdFromChannelId`: the third `-`-separated piece when there
   * are at least three, otherwise none. A missing header makes `split`
   * throw, which is caught and also gives none.
   */
  function ExtractUserId(channelId: Option<string>): (r: Option<string>)
    ensures channelId.None? ==> r.None?
    ensures channelId.Some? ==> (r.Some? <==> Count(channelId.value, '-') >= 2)
    ensures r.Some? ==> '-' !in r.value
  {
    if channelId.None? then None
    else
      SplitLength(channelId.value, '-');
      var parts := Split(channelId.value, '-');
      if |parts| >= 3 then SplitPieceLacksSeparator(channelId.value, '-', 2); Some(parts[2]) else None
  }

  /** With at least three pieces, the decoder returns the third one and ignores what follows it. */
  lemma ExtractUserIdIsThirdPiece(a: string, b: string, c: string, t: string)
    requires '-' !in a && '-' !in b && '-' !in c
    ensures ExtractUserId(Some(a + "-" + b + "-" + c + "-" + t)) == Some(c)
  {
    SplitLeading(c, t, '-');
    SplitTwoLeading(a, b, c + ['-'] + t, '-');
    assert a + "-" + b + "-" + c + "-" + t == a + ['-'] + b + ['-'] + (c + ['-'] + t);
  }

  /** With exactly three pieces, the decoder returns the last one. */
  lemma ExtractUserIdIsThirdOfThree(a: string, b: string, c: string)
    requires '-' !in a && '-' !in b && '-' !in c
    ensures ExtractUserId(Some(a + "-" + b + "-" + c)) == Some(c)
  {
    SplitWithoutSeparator(c, '-');
    SplitTwoLeading(a, b, c, '-');
    assert a + "-" + b + "-" + c == a + ['-'] + b + ['-'] + c;
  }

  /** The pieces of the fixed prefix followed by any text. */
  lemma PrefixPieces(rest: string)
    ensures Split(ChannelPrefix + rest, '-') == ["calendar", "webhook"] + Split(rest, '-')
  {
    SplitTwoLeading("calendar", "webhook", rest, '-');
    assert ChannelPrefix + rest == "calendar" + ['-'] + "webhook" + ['-'] + rest;
  }

  /** The channel id with no user segment decodes to the empty id, which is not a usable id. */
  lemma BarePrefixDecodesToEmpty()
    ensures ExtractUserId(Some(ChannelPrefix)) == Some("")
    ensures !Truthy(ExtractUserId(Some(ChannelPrefix)))
  {
    PrefixPieces("");
    assert ChannelPrefix + "" == ChannelPrefix;
  }

  /** The handler as written treats the bare prefix as no user: processing stops after the 200. */
  lemma BarePrefixStopsHandler(n: Notification, w: World)
    requires n.channelId == Some(ChannelPrefix) && n.resourceState == Some("exists")
    ensures HandleNotification(n, w) == Handled([Respond(200, "OK")], NoUserId)
  {
    BarePrefixDecodesToEmpty();
  }

  /** The pieces of a channel id this service created. */
  lemma ChannelIdPieces(userId: string, now: nat)
    ensures Split(ChannelIdFor(userId, now), '-') == ["calendar", "webhook"] + Split(userId, '-') + [Decimal(now)]
  {
    var t := Decimal(now);
    DecimalHasNoDash(now);
    SplitWithoutSeparator(t, '-');
    var rest := userId + ['-'] + t;
    SplitAroundSeparator(userId, t, '-');
    PrefixPieces(rest);
    assert ChannelIdFor(userId, now) == ChannelPrefix + rest;
  }

  /**
   * The positional decoder recovers the user id of a channel id built by
   * `setupWebhookForUser` exactly when that id contains no `-`; otherwise it
   * yields only the id's first `-`-separated piece.
   */
  lemma PositionalDecodeRoundTrip(userId: string, now: nat)
    ensures ExtractUserId(Some(ChannelIdFor(userId, now))) == Some(Split(userId, '-')[0])
    ensures ExtractUserId(Some(ChannelIdFor(userId, now))) == Some(userId) <==> '-' !in userId
  {
    ChannelIdPieces(userId, now);
    FirstPieceIsWhole(userId, '-');
  }

  /** The handler goes on to look up the user exactly when the id is non-empty and `-`-free. */
  lemma PositionalDecodeAttributes(userId: string, now: nat)
    ensures (ExtractUserId(Some(ChannelIdFor(userId, now))) == Some(userId) && userId != "") <==>
            (userId != "" && '-' !in userId)
  {
    PositionalDecodeRoundTrip(userId, now);
  }

  /** A version 4 UUID, the shape of every user id the sign-in flow generates. */
  const SampleUserId: string := "0f8c2a1e-4b7d-4c3a-9e21-5d6f7a8b9c0d"

  /** The positional decoder keeps only what precedes the user id's first `-`. */
  lemma PositionalDecodeTakesFirstPiece(head: string, tail: string, now: nat)
    requires '-' !in head
    ensures ExtractUserId(Some(ChannelIdFor(head + "-" + tail, now))) == Some(head)
  {
    PositionalDecodeRoundTrip(head + "-" + tail, now);
    SplitLeading(head, tail, '-');
    assert head + "-" + tail == head + ['-'] + tail;
  }

  /** For a generated user id, the positional decoder returns only the first eight hex digits. */
  lemma PositionalDecodeLosesUuid(now: nat)
    ensures ExtractUserId(Some(ChannelIdFor(SampleUserId, now))) == Some("0f8c2a1e")
    ensures ExtractUserId(Some(ChannelIdFor(SampleUserId, now))) != Some(SampleUserId)
  {
    var head, tail := "0f8c2a1e", "4b7d-4c3a-9e21-5d6f7a8b9c0d";
    assert SampleUserId == head + "-" + tail;
    PositionalDecodeTakesFirstPiece(head, tail, now);
  }

  /**
   * Corrected decoder: strip the fixed prefix, then drop the last
   * `-`-separated piece (the timestamp, which never contains `-`); what
   * remains is the user id, whatever it contains.
   */
  function DecodeUserId(channelId: Option<string>): (r: Option<string>)
    ensures r.Some? ==> channelId.Some? && StartsWith(channelId.value, ChannelPrefix + r.value + "-")
    ensures channelId.Some? && StartsWith(channelId.value, ChannelPrefix) ==>
      (r.Some? <==> '-' in channelId.value[|ChannelPrefix|..])
  {
    if channelId.None? || !StartsWith(channelId.value, ChannelPrefix) then None
    else
      var parts := Split(channelId.value[|ChannelPrefix|..], '-');
      DroppedLastPiece(channelId.value);
      if |parts| < 2 then None else Some(Join(parts[..|parts| - 1], '-'))
  }

  /**
   * After the prefix, a channel id splits into at least two pieces exactly
   * when a `-` follows the prefix, and then it is the prefix, the pieces but
   * the last joined back, a `-` and the last piece.
   */
  lemma DroppedLastPiece(channelId: string)
    requires StartsWith(channelId, ChannelPrefix)
    ensures var parts := Split(channelId[|ChannelPrefix|..], '-');
      && (|parts| >= 2 <==> '-' in channelId[|ChannelPrefix|..])
      && (|parts| >= 2 ==> channelId == ChannelPrefix + Join(parts[..|parts| - 1], '-') + "-" + parts[|parts| - 1])
  {
    var rest := channelId[|ChannelPrefix|..];
    var parts := Split(rest, '-');
    SplitLength(rest, '-');
    if '-' in rest {
      CountPositive(rest, '-');
    } else {
      SplitWithoutSeparator(rest, '-');
    }
    if |parts| >= 2 {
      var init, last := parts[..|parts| - 1], parts[|parts| - 1];
      assert parts == init + [last];
      JoinSplit(rest, '-');
      JoinSnoc(init, last, '-');
      assert channelId == ChannelPrefix + rest;
    }
  }

  lemma DecodeUserIdRoundTrip(userId: string, now: nat)
    ensures DecodeUserId(Some(ChannelIdFor(userId, now))) == Some(userId)
  {
    var rest := ChannelIdFor(userId, now)[|ChannelPrefix|..];
    assert rest == userId + ['-'] + Decimal(now);
    DecimalHasNoDash(now);
    SplitWithoutSeparator(Decimal(now), '-');
    SplitAroundSeparator(userId, Decimal(now), '-');
    var parts := Split(rest, '-');
    assert parts[..|parts| - 1] == Split(userId, '-');
    JoinSplit(userId, '-');
  }

  /**
   * `extractEventIdFromResourceId`: the last `_`-separated piece, which is
   * the whole string when there is no `_`; a missing header gives none.
   */
  function ExtractEventId(resourceId: Option<string>): (r: Option<string>)
    ensures r.Some? <==> resourceId.Some?
    ensures r.Some? ==> '_' !in r.value
  {
    if resourceId.None? then None else Some(LastPiece(resourceId.value, '_'))
  }

  /** The event id is a suffix of the resource id, cut just after its last `_`. */
  lemma ExtractEventIdIsLastPiece(resourceId: string)
    ensures var e := ExtractEventId(Some(resourceId)).value;
      && |e| <= |resourceId|
      && e == resourceId[|resourceId| - |e|..]
      && ('_' !in resourceId ==> e == resourceId)
      && ('_' in resourceId ==> resourceId[|resourceId| - |e| - 1] == '_')
  {
    LastPieceIsSuffix(resourceId, '_');
  }

  // ---------------------------------------------------------------------
  // The notification handler

  /** The three notification headers; each may be missing. */
  datatype Notification = Notification(channelId: Option<string>, resourceId: Option<string>, resourceState: Option<string>)

  /** An externally visible step the handler takes, in order. */
  datatype Effect =
    | Respond(status: nat, body: string)
    | LookupUser(userId: string)
    | FetchEvent(request: EventRequest)
    | UpdateDeal(apiKey: string, dealId: string, stageId: Option<string>)

  /** Why processing ended: the log line the handler writes last. */
  datatype Reason =
    | SyncAcknowledged
    | StateIgnored
    | NoUserId
    | UserNotFound
    | EventNotFound
    | NoDealId
    | NoActiveMapping
    | DealStageUpdated
    | DealUpdateFailed

  datatype Handled = Handled(effects: seq<Effect>, reason: Reason)

  /** The settled outcomes of the calls the handler may make. */
  datatype World = World(users: map<string, User>, fetched: Result<Event>, dealUpdate: Result<()>)

  /** `event.organizer?.email || event.calendar_id`. */
  function EventCalendarId(e: Event): (c: Option<string>)
    ensures Truthy(e.organizerEmail) ==> c == e.organizerEmail
    ensures !Truthy(e.organizerEmail) ==> c == e.calendarIdField
  {
    if Truthy(e.organizerEmail) then e.organizerEmail else e.calendarIdField
  }

  /** The entry carries the calendar id and `active === true`. */
  predicate IsActiveFor(m: MappingData, calendarId: Option<string>) {
    m.calendarId == calendarId && m.active == Some(true)
  }

  /** `mappings.find(m => m.calendarId === calendarId && m.active === true)`. */
  function FindActive(ms: seq<MappingData>, calendarId: Option<string>): (r: Option<MappingData>)
    ensures r.Some? ==> r.value in ms && IsActiveFor(r.value, calendarId)
    ensures r.None? <==> forall k :: 0 <= k < |ms| ==> !IsActiveFor(ms[k], calendarId)
    ensures r.Some? ==> exists i :: 0 <= i < |ms| && ms[i] == r.value && forall k :: 0 <= k < i ==> !IsActiveFor(ms[k], calendarId)
    decreases |ms|
  {
    if |ms| == 0 then None
    else if IsActiveFor(ms[0], calendarId) then (assert ms[0] == ms[0]; Some(ms[0]))
    else
      var r := FindActive(ms[1..], calendarId);
      assert forall k :: 1 <= k < |ms| ==> ms[k] == ms[1..][k - 1];
      r
  }

  /** A reader of one optional header or field, such as the user-id decoder. */
  type Reader = Option<string> -> Option<string>

  /**
   * `handleCalendarNotification` with a given channel-id decoder `decode`
   * and deal-id reader `dealIdOf` (the source uses `ExtractDealId`). It answers
   * 200 first, then stops at the first failed check: a `sync` or unknown
   * state, no (or an empty) user id, no such user, no event, no (or an
   * empty) deal id, no active mapping for the event's calendar. Only then is
   * the deal update made, once; its failure is caught and only logged.
   */
  function Handle(decode: Reader, dealIdOf: Reader, n: Notification, w: World): (h: Handled)
    ensures |h.effects| >= 1 && h.effects[0] == Respond(200, "OK")
    ensures forall i :: 1 <= i < |h.effects| ==> !h.effects[i].Respond?
    ensures n.resourceState == Some("sync") ==> h == Handled([Respond(200, "OK")], SyncAcknowledged)
    ensures n.resourceState != Some("sync") && n.resourceState != Some("exists") ==>
      h == Handled([Respond(200, "OK")], StateIgnored)
    ensures n.resourceState == Some("exists") && !Truthy(decode(n.channelId)) ==>
      h == Handled([Respond(200, "OK")], NoUserId)
    ensures n.resourceState == Some("exists") && Truthy(decode(n.channelId)) && decode(n.channelId).value !in w.users ==>
      h == Handled([Respond(200, "OK"), LookupUser(decode(n.channelId).value)], UserNotFound)
    ensures n.resourceState == Some("exists") && Truthy(decode(n.channelId)) && decode(n.channelId).value in w.users ==>
      var id := decode(n.channelId).value;
      && |h.effects| >= 3
      && h.effects[..3] == [Respond(200, "OK"), LookupUser(id),
                            FetchEvent(EventRequest(w.users[id].googleTokens, DefaultCalendar, ExtractEventId(n.resourceId)))]
      && (w.fetched.Err? ==> |h.effects| == 3 && h.reason == EventNotFound)
      && (w.fetched.Ok? && !Truthy(dealIdOf(w.fetched.value.description)) ==> |h.effects| == 3 && h.reason == NoDealId)
      && (w.fetched.Ok? && Truthy(dealIdOf(w.fetched.value.description)) &&
          FindActive(w.users[id].mappings, EventCalendarId(w.fetched.value)).None? ==>
            |h.effects| == 3 && h.reason == NoActiveMapping)
  {
    var ack := [Respond(200, "OK")];
    if n.resourceState == Some("sync") then Handled(ack, SyncAcknowledged)
    else if n.resourceState != Some("exists") then Handled(ack, StateIgnored)
    else
      var userId := decode(n.channelId);
      if !Truthy(userId) then Handled(ack, NoUserId)
      else
        var lookedUp := ack + [LookupUser(userId.value)];
        if userId.value !in w.users then Handled(lookedUp, UserNotFound)
        else
          var user := w.users[userId.value];
          var fetch := GetEvent(ExtractEventId(n.resourceId), user.googleTokens, None, w.fetched);
          var fetched := lookedUp + [FetchEvent(fetch.request)];
          if fetch.event.None? then Handled(fetched, EventNotFound)
          else
            var event := fetch.event.value;
            var dealId := dealIdOf(event.description);
            if !Truthy(dealId) then Handled(fetched, NoDealId)
            else
              var mapping := FindActive(user.mappings, EventCalendarId(event));
              if mapping.None? then Handled(fetched, NoActiveMapping)
              else
                var updated := fetched + [UpdateDeal(user.salesmapApiKey, dealId.value, mapping.value.stageId)];
                Handled(updated, if w.dealUpdate.Ok? then DealStageUpdated else DealUpdateFailed)
  }

  /** The handler as written, with the positional decoder. */
  function HandleNotification(n: Notification, w: World): (h: Handled)
    ensures |h.effects| >= 1 && h.effects[0] == Respond(200, "OK")
  {
    Handle(ExtractUserId, ExtractDealId, n, w)
  }

  /** The handler with the corrected decoder. */
  function HandleNotificationCorrected(n: Notification, w: World): (h: Handled)
    ensures |h.effects| >= 1 && h.effects[0] == Respond(200, "OK")
  {
    Handle(DecodeUserId, ExtractDealId, n, w)
  }

  /**
   * Reference condition for a deal update: an `exists` notification whose
   * decoded user id is non-empty and stored, whose event is fetched and
   * carries a non-empty deal id, and whose calendar has an active mapping.
   */
  ghost predicate Actionable(decode: Reader, dealIdOf: Reader, n: Notification, w: World) {
    var userId := decode(n.channelId);
    && n.resourceState == Some("exists")
    && Truthy(userId)
    && userId.value in w.users
    && w.fetched.Ok?
    && Truthy(dealIdOf(w.fetched.value.description))
    && FindActive(w.users[userId.value].mappings, EventCalendarId(w.fetched.value)).Some?
  }

  /** An actionable notification produces exactly the four effects, the deal update last. */
  lemma ActionableEffects(decode: Reader, dealIdOf: Reader, n: Notification, w: World)
    requires Actionable(decode, dealIdOf, n, w)
    ensures var h := Handle(decode, dealIdOf, n, w);
      var user := w.users[decode(n.channelId).value];
      var e := w.fetched.value;
      && h.effects == [Respond(200, "OK"), LookupUser(decode(n.channelId).value),
                       FetchEvent(EventRequest(user.googleTokens, DefaultCalendar, ExtractEventId(n.resourceId))),
                       UpdateDeal(user.salesmapApiKey, dealIdOf(e.description).value,
                                  FindActive(user.mappings, EventCalendarId(e)).value.stageId)]
      && h.reason == (if w.dealUpdate.Ok? then DealStageUpdated else DealUpdateFailed)
  {
    var user := w.users[decode(n.channelId).value];
    var fetch := GetEvent(ExtractEventId(n.resourceId), user.googleTokens, None, w.fetched);
    assert fetch.event == Some(w.fetched.value);
    assert fetch.request == EventRequest(user.googleTokens, DefaultCalendar, ExtractEventId(n.resourceId));
  }

  /** A notification that is not actionable never reaches the deal update. */
  lemma NotActionableNoUpdate(decode: Reader, dealIdOf: Reader, n: Notification, w: World)
    requires !Actionable(decode, dealIdOf, n, w)
    ensures |Handle(decode, dealIdOf, n, w).effects| <= 3
    ensures forall i :: 0 <= i < |Handle(decode, dealIdOf, n, w).effects| ==> !Handle(decode, dealIdOf, n, w).effects[i].UpdateDeal?
  {
    var userId := decode(n.channelId);
    if n.resourceState == Some("exists") && Truthy(userId) && userId.value in w.users && w.fetched.Ok? {
      var user := w.users[userId.value];
      var e := w.fetched.value;
      var fetch := GetEvent(ExtractEventId(n.resourceId), user.googleTokens, None, w.fetched);
      assert fetch.event == Some(e);
      var h := Handle(decode, dealIdOf, n, w);
      assert |h.effects| == 3;
    }
  }

  /** Whether the trace holds a deal update. */
  predicate UpdatesDeal(h: Handled) {
    exists i :: 0 <= i < |h.effects| && h.effects[i].UpdateDeal?
  }

  /** The deal update happens exactly when the notification is actionable. */
  lemma UpdateIffActionable(decode: Reader, dealIdOf: Reader, n: Notification, w: World)
    ensures UpdatesDeal(Handle(decode, dealIdOf, n, w)) <==> Actionable(decode, dealIdOf, n, w)
  {
    if Actionable(decode, dealIdOf, n, w) {
      ActionableEffects(decode, dealIdOf, n, w);
      assert Handle(decode, dealIdOf, n, w).effects[3].UpdateDeal?;
    } else {
      NotActionableNoUpdate(decode, dealIdOf, n, w);
    }
  }

  /** A deal update is made at most once, as the fourth and last effect. */
  lemma DealUpdateComesLast(decode: Reader, dealIdOf: Reader, n: Notification, w: World)
    ensures var h := Handle(decode, dealIdOf, n, w);
      forall i :: 0 <= i < |h.effects| && h.effects[i].UpdateDeal? ==> i == |h.effects| - 1 == 3
  {
    var h := Handle(decode, dealIdOf, n, w);
    if Actionable(decode, dealIdOf, n, w) {
      ActionableEffects(decode, dealIdOf, n, w);
      assert |h.effects| == 4 && !h.effects[0].UpdateDeal? && !h.effects[1].UpdateDeal? && !h.effects[2].UpdateDeal?;
    } else {
      NotActionableNoUpdate(decode, dealIdOf, n, w);
    }
  }

  /** A failed deal update changes nothing but the final log reason. */
  lemma DealFailureIsOnlyLogged(decode: Reader, dealIdOf: Reader, n: Notification, w: World, failure: string)
    ensures Handle(decode, dealIdOf, n, w.(dealUpdate := Err(failure))).effects == Handle(decode, dealIdOf, n, w).effects
  {
  }

  /** Without an active mapping for the event's calendar, no deal update is ever made. */
  lemma InactiveMappingNeverUpdates(decode: Reader, dealIdOf: Reader, n: Notification, w: World)
    requires w.fetched.Ok?
    requires forall u :: u in w.users ==>
      forall k :: 0 <= k < |w.users[u].mappings| ==>
        w.users[u].mappings[k].calendarId == EventCalendarId(w.fetched.value) ==> w.users[u].mappings[k].active != Some(true)
    ensures forall i :: 0 <= i < |Handle(decode, dealIdOf, n, w).effects| ==> !Handle(decode, dealIdOf, n, w).effects[i].UpdateDeal?
  {
    UpdateIffActionable(decode, dealIdOf, n, w);
  }

  /** Without a decodable user, nothing happens after the acknowledgement. */
  lemma NoUserIdNoCalls(decode: Reader, dealIdOf: Reader, n: Notification, w: World)
    requires !Truthy(decode(n.channelId))
    ensures Handle(decode, dealIdOf, n, w).effects == [Respond(200, "OK")]
  {
  }

  /** An `exists` notification with a usable user id is looked up under exactly that id. */
  lemma LooksUpDecodedUser(decode: Reader, dealIdOf: Reader, n: Notification, w: World)
    requires n.resourceState == Some("exists") && Truthy(decode(n.channelId))
    ensures |Handle(decode, dealIdOf, n, w).effects| >= 2
    ensures Handle(decode, dealIdOf, n, w).effects[1] == LookupUser(decode(n.channelId).value)
  {
  }

  /**
   * With the corrected decoder, a notification on a channel this service
   * created for a stored user is attributed to that user.
   */
  lemma CorrectedHandlerAttributes(userId: string, now: nat, n: Notification, w: World)
    requires n.channelId == Some(ChannelIdFor(userId, now)) && n.resourceState == Some("exists")
    requires userId != ""
    ensures |HandleNotificationCorrected(n, w).effects| >= 2
    ensures HandleNotificationCorrected(n, w).effects[1] == LookupUser(userId)
  {
    DecodeUserIdRoundTrip(userId, now);
    LooksUpDecodedUser(DecodeUserId, ExtractDealId, n, w);
  }

  /**
   * With the positional decoder, a notification on a channel created for a
   * generated (UUID) user id looks up the wrong user.
   */
  lemma PositionalHandlerMisattributes(now: nat, n: Notification, w: World)
    requires n.channelId == Some(ChannelIdFor(SampleUserId, now)) && n.resourceState == Some("exists")
    ensures |HandleNotification(n, w).effects| >= 2
    ensures HandleNotification(n, w).effects[1] == LookupUser("0f8c2a1e")
  {
    PositionalDecodeLosesUuid(now);
    LooksUpDecodedUser(ExtractUserId, ExtractDealId, n, w);
  }

  // ---------------------------------------------------------------------
  // Manual setup: one result entry per requested calendar

  /** One entry of the `data` list `setupUserWebhooks` answers with. */
  datatype SetupEntry =
    | SetupSucceeded(calendarId: string, channelId: string, resourceId: string, expiration: nat)
    | SetupFailed(calendarId: string, error: string)
  {
    function Calendar(): string {
      match this
      case SetupSucceeded(c, _, _, _) => c
      case SetupFailed(c, _) => c
    }
  }

  datatype SetupReply = SetupReply(status: nat, entries: seq<SetupEntry>)

  /** The entry for one calendar, from the settled outcome of its setup call. */
  function EntryFor(calendarId: string, outcome: Result<WatchResponse>): (e: SetupEntry)
    ensures e.Calendar() == calendarId
    ensures e.SetupSucceeded? <==> outcome.Ok?
    ensures outcome.Ok? ==>
      e.channelId == outcome.value.id && e.resourceId == outcome.value.resourceId && e.expiration == outcome.value.expiration
    ensures outcome.Err? ==> e.error == outcome.message
  {
    match outcome
    case Ok(w) => SetupSucceeded(calendarId, w.id, w.resourceId, w.expiration)
    case Err(msg) => SetupFailed(calendarId, msg)
  }

  /**
   * The loop of `setupUserWebhooks`, given how each call settles: one entry
   * per calendar, in order, a failure recorded and the loop carried on.
   */
  function SetupEntries(calendarIds: seq<string>, call: string -> Result<WatchResponse>): (es: seq<SetupEntry>)
    ensures |es| == |calendarIds|
    ensures forall i :: 0 <= i < |es| ==> es[i] == EntryFor(calendarIds[i], call(calendarIds[i]))
    decreases |calendarIds|
  {
    if |calendarIds| == 0 then []
    else [EntryFor(calendarIds[0], call(calendarIds[0]))] + SetupEntries(calendarIds[1..], call)
  }

  /** A request without a non-empty calendar list is refused before any call. */
  function SetupUserWebhooksWith(calendarIds: Option<seq<string>>, call: string -> Result<WatchResponse>): (r: SetupReply)
    ensures (calendarIds.None? || calendarIds.value == []) <==> r.status == 400
    ensures r.status == 400 ==> r.entries == []
    ensures r.status != 400 ==> r.status == 200 && |r.entries| == |calendarIds.value|
  {
    if calendarIds.None? || |calendarIds.value| == 0 then SetupReply(400, [])
    else SetupReply(200, SetupEntries(calendarIds.value, call))
  }

  /**
   * As written: `setupWebhookForUser` is not imported into the controller, so
   * every call throws a `ReferenceError` before reaching the gateway.
   */
  function SetupUserWebhooks(calendarIds: Option<seq<string>>): (r: SetupReply)
    ensures calendarIds.None? || calendarIds.value == [] ==> r == SetupReply(400, [])
    ensures calendarIds.Some? && calendarIds.value != [] ==>
      && r.status == 200 && |r.entries| == |calendarIds.value|
      && forall i :: 0 <= i < |r.entries| ==> r.entries[i] == SetupFailed(calendarIds.value[i], "setupWebhookForUser is not defined")
  {
    SetupUserWebhooksWith(calendarIds, (c: string) => Err("setupWebhookForUser is not defined"))
  }

  /** As written, every requested calendar is reported as failed, whatever the gateway would answer. */
  lemma SetupAlwaysFails(calendarIds: seq<string>)
    requires |calendarIds| > 0
    ensures SetupUserWebhooks(Some(calendarIds)).status == 200
    ensures forall i :: 0 <= i < |calendarIds| ==> SetupUserWebhooks(Some(calendarIds)).entries[i].SetupFailed?
  {
  }

  /** Corrected: one calendar set up through `setupWebhookForUser`, given how `events.watch` settles. */
  function CorrectedCall(userId: string, now: nat, address: Option<string>,
                         watch: WatchRequest -> Result<WatchResponse>, calendarId: string): (r: Result<WatchResponse>)
    ensures r == watch(WatchRequestFor(userId, Some(calendarId), now, address))
  {
    SetupWebhookForUser(userId, Some(calendarId), now, address,
                        watch(WatchRequestFor(userId, Some(calendarId), now, address))).result
  }

  /** Corrected: each calendar is set up through `setupWebhookForUser` with the settled watch outcome. */
  function SetupUserWebhooksCorrected(userId: string, calendarIds: Option<seq<string>>, now: nat,
                                      address: Option<string>, watch: WatchRequest -> Result<WatchResponse>): (r: SetupReply)
    ensures calendarIds.None? || calendarIds.value == [] ==> r == SetupReply(400, [])
    ensures calendarIds.Some? && calendarIds.value != [] ==>
      && r.status == 200 && |r.entries| == |calendarIds.value|
      && forall i :: 0 <= i < |r.entries| ==> r.entries[i].Calendar() == calendarIds.value[i]
  {
    SetupUserWebhooksWith(calendarIds, (c: string) => CorrectedCall(userId, now, address, watch, c))
  }

  /**
   * Corrected: the entry for a calendar succeeds exactly when its watch
   * request succeeds, and then reports the channel id, resource id and
   * expiry the gateway returned; a failed entry carries the error message.
   */
  lemma CorrectedSetupReportsEachCalendar(userId: string, calendarIds: seq<string>, now: nat,
                                          address: Option<string>, watch: WatchRequest -> Result<WatchResponse>)
    requires |calendarIds| > 0
    ensures var r := SetupUserWebhooksCorrected(userId, Some(calendarIds), now, address, watch);
      && r.status == 200 && |r.entries| == |calendarIds|
      && forall i :: 0 <= i < |calendarIds| ==>
        var req := WatchRequestFor(userId, Some(calendarIds[i]), now, address);
        && req.calendarId == calendarIds[i]
        && r.entries[i].Calendar() == calendarIds[i]
        && (r.entries[i].SetupSucceeded? <==> watch(req).Ok?)
        && (watch(req).Ok? ==> r.entries[i] == SetupSucceeded(calendarIds[i], watch(req).value.id,
                                                               watch(req).value.resourceId, watch(req).value.expiration))
        && (watch(req).Err? ==> r.entries[i] == SetupFailed(calendarIds[i], watch(req).message))
  {
    var call := (c: string) => CorrectedCall(userId, now, address, watch, c);
    var r := SetupUserWebhooksCorrected(userId, Some(calendarIds), now, address, watch);
    assert r.entries == SetupEntries(calendarIds, call);
    forall i | 0 <= i < |calendarIds|
      ensures r.entries[i] == EntryFor(calendarIds[i], watch(WatchRequestFor(userId, Some(calendarIds[i]), now, address)))
    {
      assert call(calendarIds[i]) == CorrectedCall(userId, now, address, watch, calendarIds[i]);
    }
  }
}
