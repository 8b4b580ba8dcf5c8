/**
 * The calendar-side calls of src/services/googleCalendar.js. The remote
 * Google API calls (`events.watch`, `channels.stop`, `events.get`) are not
 * modelled: their settled outcome is a parameter, and each operation
 * returns the request it would send together with what it hands back to
 * its caller.
 */
module GoogleCalendar {
  import opened Js
  import opened Text
  import opened Users

  /** Fixed start of every channel id this service creates. */
  const ChannelPrefix: string := "calendar-webhook-"

  /** Lifetime requested for a watch channel: seven days in milliseconds. */
  const WatchLifetimeMs: nat := 7 * 24 * 60 * 60 * 1000

  /** Calendar watched when the caller names none. */
  const DefaultCalendar: string := "primary"

  /** `calendar-webhook-${userId}-${Date.now()}` at clock reading `now` (milliseconds). */
  function ChannelIdFor(userId: string, now: nat): (id: string)
    ensures StartsWith(id, ChannelPrefix)
    ensures id[|ChannelPrefix|..] == userId + "-" + Decimal(now)
  {
    var id := ChannelPrefix + userId + "-" + Decimal(now);
    assert id[..|ChannelPrefix|] == ChannelPrefix;
    id
  }

  /** The body of an `events.watch` request. */
  datatype WatchRequest = WatchRequest(
    calendarId: string,
    channelId: string,
    channelType: string,
    address: Option<string>,
    expiration: string)

  /** What `events.watch` answers: the channel id, the watched resource id and the expiry. */
  datatype WatchResponse = WatchResponse(id: string, resourceId: string, expiration: nat)

  /** A call to `setupWebhookForUser`: the request sent and what the caller receives. */
  datatype Setup = Setup(request: WatchRequest, result: Result<WatchResponse>)

  /**
   * The `events.watch` request `setupWebhookForUser` sends at clock reading
   * `now`, with the webhook address from the environment. The calendar
   * defaults to `primary` only when the argument is missing; the expiry is
   * seven days after `now`, rendered in decimal.
   */
  function WatchRequestFor(userId: string, calendarId: Option<string>, now: nat, address: Option<string>): (q: WatchRequest)
    ensures q.calendarId == calendarId.GetOr(DefaultCalendar)
    ensures q.channelId == ChannelIdFor(userId, now)
    ensures q.channelType == "web_hook" && q.address == address
    ensures (forall i :: 0 <= i < |q.expiration| ==> IsDigit(q.expiration[i])) &&
            ParseDecimal(q.expiration) == now + WatchLifetimeMs
  {
    ParseDecimalOfDecimal(now + WatchLifetimeMs);
    WatchRequest(calendarId.GetOr(DefaultCalendar), ChannelIdFor(userId, now), "web_hook", address,
                 Decimal(now + WatchLifetimeMs))
  }

  /**
   * `setupWebhookForUser(userId, tokens, calendarId)` with the settled
   * outcome of `events.watch`: the gateway's answer is returned as is and its
   * failure is rethrown.
   */
  function SetupWebhookForUser(userId: string, calendarId: Option<string>, now: nat,
                               address: Option<string>, watched: Result<WatchResponse>): (s: Setup)
    ensures s.request.calendarId == calendarId.GetOr(DefaultCalendar)
    ensures s.request.channelId == ChannelIdFor(userId, now)
    ensures s.request.channelType == "web_hook" && s.request.address == address
    ensures s.request.expiration == Decimal(now + WatchLifetimeMs)
    ensures s.result == watched
  {
    Setup(WatchRequestFor(userId, calendarId, now, address), watched)
  }

  /** A later setup asks for a later expiry: renewing always pushes the expiry forward. */
  lemma LaterSetupExpiresLater(userId: string, calendarId: Option<string>, address: Option<string>,
                               earlier: nat, later: nat)
    requires earlier < later
    ensures ParseDecimal(WatchRequestFor(userId, calendarId, earlier, address).expiration) <
            ParseDecimal(WatchRequestFor(userId, calendarId, later, address).expiration)
  {
  }

  /**
   * The credentials a calendar client is built from: the user's OAuth tokens,
   * or whatever other value a caller passes in their place.
   */
  datatype Credentials = OAuth(tokens: Tokens) | Stray(text: Option<string>)

  /** The body of a `channels.stop` request, with the credentials it is sent with. */
  datatype StopRequest = StopRequest(credentials: Credentials, channelId: Option<string>, resourceId: Option<string>)

  /** A call to `stopWebhook`: the request sent and what the caller receives. */
  datatype Stop = Stop(request: StopRequest, result: Result<bool>)

  /** `stopWebhook(tokens, channelId, resourceId)`: `true` on success, the failure rethrown. */
  function StopWebhook(credentials: Credentials, channelId: Option<string>, resourceId: Option<string>,
                       stopped: Result<()>): (s: Stop)
    ensures s.request == StopRequest(credentials, channelId, resourceId)
    ensures s.result.Ok? <==> stopped.Ok?
    ensures s.result.Ok? ==> s.result.value
    ensures s.result.Err? ==> s.result.message == stopped.message
  {
    Stop(StopRequest(credentials, channelId, resourceId),
         if stopped.Ok? then Ok(true) else Err(stopped.message))
  }

  /** The fields of a calendar event that this system reads. */
  datatype Event = Event(
    id: Option<string>,
    summary: Option<string>,
    description: Option<string>,
    organizerEmail: Option<string>,
    calendarIdField: Option<string>)

  /** The request `events.get` is sent with. */
  datatype EventRequest = EventRequest(tokens: Tokens, calendarId: string, eventId: Option<string>)

  /** A call to `getEvent`: the request sent and the event, absent on any failure. */
  datatype Fetch = Fetch(request: EventRequest, event: Option<Event>)

  /**
   * `getEvent(eventId, tokens, calendarId)`: never fails; any failure of
   * `events.get` is swallowed and yields no event.
   */
  function GetEvent(eventId: Option<string>, tokens: Tokens, calendarId: Option<string>,
                    fetched: Result<Event>): (f: Fetch)
    ensures f.request == EventRequest(tokens, calendarId.GetOr(DefaultCalendar), eventId)
    ensures f.event.Some? <==> fetched.Ok?
    ensures f.event.Some? ==> f.event.value == fetched.value
  {
    Fetch(EventRequest(tokens, calendarId.GetOr(DefaultCalendar), eventId),
          if fetched.Ok? then Some(fetched.value) else None)
  }
}
