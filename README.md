# Web-usage analytics: session identity, event schema and aggregation

A Dafny model of a small analytics pipeline. A script embedded in web pages
(`tracking/tracker.js`) keeps a session id in the browser's `localStorage`,
renewing it after 30 minutes of inactivity, and posts page-view and click
events. An Express/Mongoose backend validates each posted event against a
schema (`src/models/event.js`), stores it, and answers four read queries over
the stored events (`src/routes/event.js`): per-session summaries, the events of
one session, the clicks of one page (a heatmap), and the list of tracked pages.

Modules, one per file:

- `options.dfy` — `Options`: `Option` and `Result`.
- `seqs.dfy` — `Seqs`: the store's query primitives on sequences: `Filter`
  (a `find` with a condition), `Dedup` (`distinct`, `$addToSet`), `SortBy`
  (a stable insertion sort on an integer key, for `sort`/`$sort`), with their
  multiset, membership and ordering properties.
- `numerals.dfy` — `Numerals`: JavaScript's `toString()` of an integer
  (`DecimalString`) and `parseInt(s, 10)` (`ParseInt`, `None` for NaN), and
  the round trip between them.
- `json.dfy` — `Json`: the posted JSON object as a map from field names to
  values.
- `event_model.dfy` — `EventModel`: the cast request body (`Incoming`), the
  stored `Event`, the schema's validation (`ValidationErrors`, `Validate`,
  with the timestamp default) and how a posted JSON object is read (`Receive`).
- `event_routes.dfy` — `EventRoutes`: the store as a class whose `Track`
  method appends a validated event, and the read routes as functions over the
  stored sequence, with lemmas for their properties.
- `tracker.dfy` — `Tracker`: `localStorage` as a class over a string map,
  the session-id rule as a specification function (`NextSessionId`,
  `NextItems`) with the method `GetSessionId` proved against it, the payload
  assembly, the tracking methods, and the URL-change watcher as a class.

Timestamps are integers (milliseconds since the epoch). The clock reading
(`Date.now()`) and the random suffix of a new session id are parameters; the
database's acceptance of a write is a parameter of `Track`.

Behaviour of the code worth knowing, all of it modelled as written:

- A session id is still reused when exactly 30 minutes have passed: the
  timeout test is a strict `>` (`tracking/tracker.js:22`), so only a gap
  longer than 30 minutes renews it.
- POST `/track` answers 400, not a 5xx, for every failure of `event.save()`,
  a database failure included (`src/routes/event.js:12-13`).
- The schema does not tie the coordinates to the event type: a page view with
  `clickX`/`clickY` is stored (`src/models/event.js:6-10`); the heatmap query
  filters on the type itself.
- The `required` rule refuses the empty string as well as an absent value, so
  stored events have a non-empty `sessionId` and `pageUrl`.

## Model

| member | source | states |
|---|---|---|
| `Tracker.TimedOut` | tracking/tracker.js:22 | the session times out only when the stored last activity parses to a number more than 1,800,000 ms before `now`; a value that parses to NaN never times out |
| `Tracker.MustMint` | tracking/tracker.js:19-23 | the stored id is kept only when both keys hold non-empty strings; with either key absent a new id is minted |
| `Tracker.MintId` | tracking/tracker.js:24-28 | a minted id starts with `"sess_"` and ends with the random suffix |
| `Numerals.ParseInt` | tracking/tracker.js:22 | `parseInt(s, 10)`: a blank string is NaN, a string starting with a digit is a non-negative number, one starting with `-` and a digit a non-positive one |
| `Numerals.DecimalString` | tracking/tracker.js:33 | `n.toString()`: non-empty, a leading `-` exactly for negative `n`, decimal digits everywhere else |
| `Tracker.Storage.GetItem` | tracking/tracker.js:14-15 | `getItem` gives the stored string under a key, or null (`None`) when the key is absent |
| `Tracker.Storage.SetItem` | tracking/tracker.js:30 | `setItem` replaces the value under one key and changes no other key |
| `Tracker.NextItems` | tracking/tracker.js:19-33 | after a call the id key holds the returned id, the last-activity key holds `now` as a decimal string, and every other key is unchanged |
| `Tracker.NextSessionId` | tracking/tracker.js:19-34 | the returned id is never empty, so the next call sees a stored id |
| `Tracker.GetSessionId` | tracking/tracker.js:13-35 | returns `NextSessionId` of the old storage and leaves the storage equal to `NextItems` of it |
| `Tracker.MintsWhenMissing` | tracking/tracker.js:19-30 | with the id or the last activity absent or empty, the call mints `"sess_" + now + "_" + suffix` and stores it under the id key |
| `Tracker.ReusesWithinTimeout` | tracking/tracker.js:19-34 | with an id stored and a last activity that `parseInt` reads as `last` (`"123"`, `" +123"`, `"123abc"` alike), a call at most 1,800,000 ms later (the boundary included) returns the stored id and does not change the id key |
| `Tracker.MintsAfterTimeout` | tracking/tracker.js:22-30 | more than 1,800,000 ms after a last activity that `parseInt` reads as `last`, the call returns a newly minted id |
| `Tracker.CorruptActivityKeepsId` | tracking/tracker.js:22 | a stored last activity that `parseInt` reads as NaN never times out, so the stored id is returned |
| `Tracker.ActivityKeepsSession` | tracking/tracker.js:10-35 | two consecutive calls at most 30 minutes apart return the same id, whatever the storage held before the first |
| `Tracker.InactivityRenewsSession` | tracking/tracker.js:10-35 | two consecutive calls more than 30 minutes apart: the second mints a new id, different from the first's when the first minted too |
| `Tracker.MintIdInjective` | tracking/tracker.js:24-28 | a minted id determines its instant and its suffix, so ids minted at different instants differ |
| `Numerals.ParseDecimalString` | tracking/tracker.js:22-33 | `parseInt(n.toString(), 10) == n` for every integer `n`: the stamped last activity reads back exactly |
| `Tracker.DefaultFields` | tracking/tracker.js:38-44 | the defaults are exactly `sessionId`, `pageUrl`, `timestamp`, `userAgent`, `screenWidth` and `screenHeight` |
| `Tracker.PageViewData` | tracking/tracker.js:64 | a page view passes only `eventType` |
| `Tracker.ClickData` | tracking/tracker.js:68-72 | a click passes `eventType`, `clickX` and `clickY`, the coordinates being the pointer's document position |
| `Tracker.Spread` | tracking/tracker.js:38-46 | the payload has the fields of the defaults and of the caller's data; a caller's field replaces the default of the same name, the other defaults stay |
| `Tracker.SendEvent` | tracking/tracker.js:37-47 | refreshes the session as `getSessionId` does and returns the defaults (session id, URL, capture instant, user agent, screen size) spread with the caller's data |
| `Tracker.TrackPageView` | tracking/tracker.js:63-65 | sends `{eventType: "page_view"}` through `SendEvent` |
| `Tracker.TrackClick` | tracking/tracker.js:67-73 | sends `{eventType: "click", clickX: pageX, clickY: pageY}` through `SendEvent` |
| `Tracker.PageViewPayloadShape` | tracking/tracker.js:63-64 | a page-view payload has `eventType` `"page_view"`, no coordinates, and the session id, URL, instant of capture, user agent and screen size |
| `Tracker.ClickPayloadShape` | tracking/tracker.js:67-72 | a click payload has `eventType` `"click"`, `clickX = pageX`, `clickY = pageY`, and the session id, URL, instant of capture, user agent and screen size |
| `Tracker.PageViewAccepted` | tracking/tracker.js:38-46 | the server's schema accepts a tracked page view and stores it with the captured session, page, instant and metadata and no coordinates |
| `Tracker.PageViewReceived` | tracking/tracker.js:38-46 | the server reads a page-view payload back field by field as the tracker filled it in, with no coordinates |
| `Tracker.ClickReceived` | tracking/tracker.js:38-46 | the server reads a click payload back field by field as the tracker filled it in, coordinates included |
| `Tracker.ClickAccepted` | tracking/tracker.js:68-72 | the server's schema accepts a tracked click and stores it with its coordinates |
| `Tracker.CustomTypeRefused` | tracking/tracker.js:105 | data passed to `trackEvent` with an `eventType` outside the enum overrides the default fields and the server refuses the event |
| `Tracker.PageWatcher.constructor` | tracking/tracker.js:84 | the watcher starts with `lastUrl` equal to the URL at `init` and no page views sent |
| `Tracker.PageWatcher.OnMutation` | tracking/tracker.js:85-90 | after a mutation batch a page view is sent exactly when the current URL differs from `lastUrl`, which then equals the current URL; a repeated mutation with an unchanged URL sends nothing and leaves the storage alone; no two consecutive page views are for the same URL |
| `EventModel.ParseEventType` | src/models/event.js:6 | only `"page_view"` and `"click"` are event types, and each names its own type |
| `EventModel.ValidationErrors` | src/models/event.js:5-7 | each required path is reported exactly when it fails, with the rule it fails: `sessionId`, `pageUrl` or `eventType` absent or empty gives `required` on that path, an `eventType` outside `page_view`/`click` gives the enum rule; nothing else is reported, and `eventType` never fails both rules |
| `EventModel.Valid` | src/models/event.js:5-7 | a body is valid exactly when `sessionId` and `pageUrl` are present and non-empty and `eventType` is `"page_view"` or `"click"` |
| `EventModel.Validate` | src/models/event.js:3-14 | a body is stored exactly when it has no validation errors; a refusal lists every failing path; a stored event copies the body's fields and takes the current instant when no timestamp is given |
| `EventModel.MissingSessionIdRefused` | src/models/event.js:5 | a body without a session id, or with an empty one, is refused on `sessionId` |
| `EventModel.BadEventTypeRefused` | src/models/event.js:6 | a body without an event type, or with one other than `page_view` and `click`, is refused on `eventType` |
| `EventModel.MissingPageUrlRefused` | src/models/event.js:7 | a body without a page URL, or with an empty one, is refused on `pageUrl` |
| `EventModel.OptionalFieldsNeverRefuse` | src/models/event.js:8-13 | changing the timestamp, coordinates, user agent or screen size never changes whether a body is valid, whatever its event type |
| `EventModel.Receive` | src/server.js:23 | each schema path of the parsed body is present exactly when the posted JSON object has that field, and holds that field's value (a timestamp given as an instant or as milliseconds); fields outside the schema are not kept |
| `EventRoutes.EventStore.Track` | src/routes/event.js:7-15 | a valid body the database takes is appended, the store grows by exactly that event and the reply is 201 with its id; a refused body (400 with the schema's errors) or a failed save (400) leaves the store unchanged; every stored event stays well formed |
| `EventRoutes.EventsOf` | src/routes/event.js:52 | `find({ sessionId })` keeps exactly the stored events of that session, each as many times as stored |
| `EventRoutes.EventsOfCount` | src/routes/event.js:24 | a session has as many events as there are stored events with its id |
| `EventRoutes.Earliest` | src/routes/event.js:25 | `$min` of the timestamps is one of them and no larger than any |
| `EventRoutes.Latest` | src/routes/event.js:26 | `$max` of the timestamps is one of them and no smaller than any |
| `EventRoutes.DistinctPagesCount` | src/routes/event.js:27 | the number of distinct pages computed for a session is the size of the set of its page URLs |
| `EventRoutes.Summarize` | src/routes/event.js:31-38 | the summary of a session carries that session's id |
| `EventRoutes.Summaries` | src/routes/event.js:21-39 | the `$group`/`$project` stages give one row per session id, in the order of the ids, each the summary of that session |
| `EventRoutes.SummaryExact` | src/routes/event.js:20-38 | a summary's `eventCount` is the number of the session's events, `firstSeen` the smallest and `lastSeen` the largest of their timestamps, `pageCount` the number of distinct page URLs among them |
| `EventRoutes.PageCountBounds` | src/routes/event.js:25-36 | every summary has `1 <= pageCount <= eventCount` and `firstSeen <= lastSeen` |
| `EventRoutes.Sessions` | src/routes/event.js:18-43 | GET `/sessions` gives as many rows as there are distinct session ids; `SessionsOrdered`, `SessionsAreSummaries`, `SessionsCoverStore`, `SessionsDistinct` and `SessionCountsSum` state the rest of its contract |
| `EventRoutes.SessionsOrdered` | src/routes/event.js:40 | the summaries come in non-increasing order of `lastSeen` |
| `EventRoutes.SessionsAreSummaries` | src/routes/event.js:20-41 | every row is the summary of a session id present in the store |
| `EventRoutes.SessionsCoverStore` | src/routes/event.js:22-23 | every session id present in the store has a row |
| `EventRoutes.SessionsDistinct` | src/routes/event.js:23 | no session id has two rows |
| `EventRoutes.SessionCountsSum` | src/routes/event.js:24 | the event counts of the rows add up to the number of stored events |
| `EventRoutes.SessionEvents` | src/routes/event.js:52-54 | the session's events are exactly the stored events with that id, each as many times as stored, in non-decreasing timestamp order |
| `EventRoutes.UnknownSessionIsEmpty` | src/routes/event.js:52-56 | an unknown session id gives an empty list, not an error |
| `EventRoutes.SessionEventsIgnoreArrivalOrder` | src/routes/event.js:52-53 | stores holding the same events in different orders give the same session events as a multiset: each event as many times, each result sorted by timestamp (the order of equal timestamps may differ) |
| `EventRoutes.Heatmap` | src/routes/event.js:63-80 | a missing or empty `pageUrl` is answered 400 before any lookup; otherwise 200 with exactly the stored clicks on that page that have both coordinates, and `totalClicks` equal to their number |
| `EventRoutes.Pages` | src/routes/event.js:89 | every page URL present in the store is listed once, and nothing else is |
| `EventRoutes.AppendedEventVisible` | src/routes/event.js:10 | after an append the event's session counts one more event and lists it, and its page is listed |
| `EventRoutes.ExampleSessions` | src/routes/event.js:20-41 | for a click and a view by s1 on /a at 0 and 1 and a view by s2 on /b at 2, the rows are s2 (1 event, 1 page) then s1 (2 events, 1 page) |
| `EventRoutes.ExampleHeatmap` | src/routes/event.js:73-80 | in that example the heatmap of /a holds the one click, `totalClicks = 1` |
| `Seqs.Filter` | src/routes/event.js:73-78 | a `find` keeps every matching document as often as it is stored and no other |
| `Seqs.Dedup` | src/routes/event.js:89 | `distinct` gives each value once, and only values that occur |
| `Seqs.SortBy` | src/routes/event.js:53 | a sort gives a permutation of its input ordered by the key |
| `Seqs.CountsPartition` | src/routes/event.js:22-24 | distinct group keys that cover every document split the documents: the group counts add up to the total |

## Left out

- Event delivery (`navigator.sendBeacon`, `fetch` with `keepalive`, the swallowed errors; tracking/tracker.js:48-60): network I/O with no observable result. `SendEvent` returns the payload it would send.
- DOM and browser glue (`readyState` checks, listener registration, `MutationObserver` setup, the `window.Analytics` export; tracking/tracker.js:75-108): environment wiring. The page view sent on load is `TrackPageView`; only the URL comparison of the observer is modelled.
- `Math.random().toString(36).substr(2, 9)` and `Date.now()`: parameters (`suffix`, `now`). `sendEvent` reads the clock twice (`Date.now()` in `getSessionId`, `new Date()` for the timestamp); the model uses one instant for both.
- `toISOString()` and the server's cast of that string back to a date: a timestamp travels as `Instant(ms)` and is assumed to arrive unchanged.
- `EventModel.Receive`: requires every schema field of the posted object to have the schema's JSON type; Mongoose's casting of other values (numbers to strings, numeric strings to numbers, cast errors) is library behaviour outside this model.
- JavaScript numbers are unbounded integers here: no floating point, no loss of precision beyond 2^53 in `parseInt` or `Date.now()`, and fractional `pageX`/`pageY` are not represented.
- Store read failures on the GET routes (HTTP 500): the model's reads never fail. The Express routing, JSON response framing, CORS, static files, `.env` loading, the database connection and `listen` (src/server.js) are plumbing.
- `createdAt`/`updatedAt` auto-timestamps and the two indexes (src/models/event.js:15-19): clock-driven or performance-only.
- `eventId`: the model answers with the event's position in the store; Mongo's `ObjectId` generation is not modelled.
- The order of sessions with equal `lastSeen`, of session events with equal timestamps, and of heatmap clicks: the model fixes one (a stable sort, store order) but proves only what the routes promise.
- The `pageUrl` query parameter given more than once (an array after query parsing) is not modelled; it is a string or absent.
- A `localStorage` that throws (private mode, quota): the tracker does not handle it either.
