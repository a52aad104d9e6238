/**
 * The event schema (src/models/event.js): which request bodies become stored
 * events, the default timestamp, and the shape of a stored event.
 */
module EventModel {
  import opened Options
  import opened Json

  /** The two values the schema's `eventType` enum admits. */
  datatype EventType = PageView | Click

  const PAGE_VIEW: string := "page_view"
  const CLICK: string := "click"

  function TypeName(t: EventType): string {
    match t
    case PageView => PAGE_VIEW
    case Click => CLICK
  }

  /** The enum member named `name`, if any. */
  function ParseEventType(name: string): (r: Option<EventType>)
    ensures r.Some? <==> name == PAGE_VIEW || name == CLICK
    ensures r.Some? ==> TypeName(r.value) == name
  {
    if name == PAGE_VIEW then Some(PageView)
    else if name == CLICK then Some(Click)
    else None
  }

  /**
   * A request body after the schema has cast it: every schema path, present
   * or not. Fields the schema does not declare are dropped.
   */
  datatype Incoming = Incoming(
    sessionId: Option<string>,
    eventType: Option<string>,
    pageUrl: Option<string>,
    timestamp: Option<int>,
    clickX: Option<int>,
    clickY: Option<int>,
    userAgent: Option<string>,
    screenWidth: Option<int>,
    screenHeight: Option<int>)

  /** A stored event; the timestamp is in milliseconds since the epoch. */
  datatype Event = Event(
    sessionId: string,
    eventType: EventType,
    pageUrl: string,
    timestamp: int,
    clickX: Option<int>,
    clickY: Option<int>,
    userAgent: Option<string>,
    screenWidth: Option<int>,
    screenHeight: Option<int>)

  /** One path's validation failure; each path reports its first failing rule only. */
  datatype Problem = Required(path: string) | NotInEnum(path: string)

  /** The `required` rule on a String path: absent and the empty string both fail it. */
  predicate Missing(v: Option<string>) {
    v == None || v == Some("")
  }

  /** The failures of the three required paths; the optional ones never fail. */
  function ValidationErrors(body: Incoming): (r: set<Problem>)
    ensures forall p :: p in r ==> p.path in {"sessionId", "eventType", "pageUrl"}
    ensures !(Required("eventType") in r && NotInEnum("eventType") in r)
    ensures NotInEnum("sessionId") !in r && NotInEnum("pageUrl") !in r
    ensures Required("sessionId") in r <==> Missing(body.sessionId)
    ensures Required("pageUrl") in r <==> Missing(body.pageUrl)
    ensures Required("eventType") in r <==> Missing(body.eventType)
    ensures NotInEnum("eventType") in r
            <==> !Missing(body.eventType) && body.eventType.value !in {PAGE_VIEW, CLICK}
  {
    (if Missing(body.sessionId) then {Required("sessionId")} else {})
    + (if Missing(body.eventType) then {Required("eventType")}
       else if ParseEventType(body.eventType.value).None? then {NotInEnum("eventType")}
       else {})
    + (if Missing(body.pageUrl) then {Required("pageUrl")} else {})
  }

  /** The body is admitted by the schema. */
  predicate Valid(body: Incoming): (r: bool)
    ensures r <==> && !Missing(body.sessionId) && !Missing(body.pageUrl)
                   && body.eventType.Some? && body.eventType.value in {PAGE_VIEW, CLICK}
  {
    ValidationErrors(body) == {}
  }

  /** What every stored event satisfies. */
  predicate WellFormed(e: Event) {
    e.sessionId != "" && e.pageUrl != ""
  }

  /**
   * Builds the document for `body` (the timestamp defaults to `now`, the
   * instant the document is built) and validates it: the event if the body
   * is valid, otherwise every path's failure.
   */
  function Validate(body: Incoming, now: int): (r: Result<Event, set<Problem>>)
    ensures r.Ok? <==> Valid(body)
    ensures r.Err? ==> r.error == ValidationErrors(body) && r.error != {}
    ensures r.Ok? ==> WellFormed(r.value)
    ensures r.Ok? ==> && Some(r.value.sessionId) == body.sessionId
                      && Some(TypeName(r.value.eventType)) == body.eventType
                      && Some(r.value.pageUrl) == body.pageUrl
                      && r.value.clickX == body.clickX && r.value.clickY == body.clickY
                      && r.value.userAgent == body.userAgent
                      && r.value.screenWidth == body.screenWidth
                      && r.value.screenHeight == body.screenHeight
    ensures r.Ok? ==> r.value.timestamp == if body.timestamp.Some? then body.timestamp.value else now
  {
    var errors := ValidationErrors(body);
    if errors != {} then Err(errors)
    else
      Ok(Event(body.sessionId.value, ParseEventType(body.eventType.value).value, body.pageUrl.value,
               body.timestamp.GetOr(now),
               body.clickX, body.clickY, body.userAgent, body.screenWidth, body.screenHeight))
  }

  /** A body without a session id, or with an empty one, is refused on that path. */
  lemma MissingSessionIdRefused(body: Incoming, now: int)
    requires Missing(body.sessionId)
    ensures Validate(body, now).Err? && Required("sessionId") in Validate(body, now).error
  {
  }

  /** A body without an event type, or with one outside the enum, is refused on that path. */
  lemma BadEventTypeRefused(body: Incoming, now: int)
    requires body.eventType.Some? ==> body.eventType.value != PAGE_VIEW && body.eventType.value != CLICK
    ensures Validate(body, now).Err?
    ensures Required("eventType") in Validate(body, now).error
            || NotInEnum("eventType") in Validate(body, now).error
  {
  }

  /** A body without a page URL, or with an empty one, is refused on that path. */
  lemma MissingPageUrlRefused(body: Incoming, now: int)
    requires Missing(body.pageUrl)
    ensures Validate(body, now).Err? && Required("pageUrl") in Validate(body, now).error
  {
  }

  /**
   * Only the three required paths decide validity: coordinates and client
   * metadata may be present or absent, whatever the event type, so a page
   * view that carries click coordinates is admitted.
   */
  lemma OptionalFieldsNeverRefuse(body: Incoming, clickX: Option<int>, clickY: Option<int>,
                                  userAgent: Option<string>, screenWidth: Option<int>,
                                  screenHeight: Option<int>, timestamp: Option<int>)
    ensures Valid(body) <==> Valid(body.(clickX := clickX, clickY := clickY, userAgent := userAgent,
                                         screenWidth := screenWidth, screenHeight := screenHeight,
                                         timestamp := timestamp))
  {
  }

  /** The body is well typed for the schema: each declared path holds a value the schema's type takes as is. */
  predicate WellTyped(p: Payload) {
    && (forall key :: key in {"sessionId", "eventType", "pageUrl", "userAgent"} && key in p ==> p[key].Text?)
    && (forall key :: key in {"clickX", "clickY", "screenWidth", "screenHeight"} && key in p ==> p[key].Number?)
    && ("timestamp" in p ==> !p["timestamp"].Text?)
  }

  function TextField(p: Payload, key: string): Option<string>
    requires key in p ==> p[key].Text?
  {
    if key in p then Some(p[key].text) else None
  }

  function NumberField(p: Payload, key: string): Option<int>
    requires key in p ==> p[key].Number?
  {
    if key in p then Some(p[key].number) else None
  }

  /**
   * The parsed JSON body as the schema sees it: declared paths only, a Date
   * path taking either the ISO string of an instant or a number of milliseconds.
   */
  function Receive(p: Payload): (body: Incoming)
    requires WellTyped(p)
    ensures body.sessionId.Some? <==> "sessionId" in p
    ensures body.eventType.Some? <==> "eventType" in p
    ensures body.pageUrl.Some? <==> "pageUrl" in p
    ensures body.timestamp.Some? <==> "timestamp" in p
    ensures body.clickX.Some? <==> "clickX" in p
    ensures body.clickY.Some? <==> "clickY" in p
    ensures body.userAgent.Some? <==> "userAgent" in p
    ensures body.screenWidth.Some? <==> "screenWidth" in p
    ensures body.screenHeight.Some? <==> "screenHeight" in p
    ensures "sessionId" in p ==> body.sessionId.value == p["sessionId"].text
    ensures "eventType" in p ==> body.eventType.value == p["eventType"].text
    ensures "pageUrl" in p ==> body.pageUrl.value == p["pageUrl"].text
    ensures "userAgent" in p ==> body.userAgent.value == p["userAgent"].text
    ensures "clickX" in p ==> body.clickX.value == p["clickX"].number
    ensures "clickY" in p ==> body.clickY.value == p["clickY"].number
    ensures "screenWidth" in p ==> body.screenWidth.value == p["screenWidth"].number
    ensures "screenHeight" in p ==> body.screenHeight.value == p["screenHeight"].number
    ensures "timestamp" in p && p["timestamp"].Instant? ==> body.timestamp.value == p["timestamp"].millis
    ensures "timestamp" in p && p["timestamp"].Number? ==> body.timestamp.value == p["timestamp"].number
  {
    Incoming(
      TextField(p, "sessionId"), TextField(p, "eventType"), TextField(p, "pageUrl"),
      if "timestamp" !in p then None
      else if p["timestamp"].Instant? then Some(p["timestamp"].millis)
      else Some(p["timestamp"].number),
      NumberField(p, "clickX"), NumberField(p, "clickY"), TextField(p, "userAgent"),
      NumberField(p, "screenWidth"), NumberField(p, "screenHeight"))
  }
}
