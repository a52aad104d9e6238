/**
 * The event API (src/routes/event.js): ingest appends a validated event to
 * the store; the four read routes are queries over the stored events.
 */
module EventRoutes {
  import opened Options
  import opened Seqs
  import opened EventModel

  /** Why a request is refused. */
  datatype Failure =
    | ValidationFailed(problems: set<Problem>)  // the schema refused the body
    | SaveFailed                                 // the database did not take the write
    | MissingParameter(name: string)             // a required query parameter is absent or empty

  /** A response: an HTTP status with either the success body or the failure. */
  datatype Reply<T> = Served(status: int, value: T) | Refused(status: int, reason: Failure)

  /** The events collection. */
  class EventStore {
    var events: seq<Event>

    /** Every stored event passed validation. */
    predicate Valid()
      reads this
    {
      forall e :: e in events ==> WellFormed(e)
    }

    constructor ()
      ensures Valid() && events == []
    {
      events := [];
    }

    /**
     * POST /track: builds the document from `body` at instant `now` and saves
     * it. A valid body that the database takes is appended and answered with
     * 201 and its id (its position in the store); any failure, the schema's
     * or the database's, is answered with 400 and changes nothing.
     */
    method Track(body: Incoming, now: int, saveSucceeds: bool) returns (reply: Reply<nat>)
      requires Valid()
      modifies this
      ensures Valid()
      ensures match Validate(body, now)
        case Err(problems) => reply == Refused(400, ValidationFailed(problems)) && events == old(events)
        case Ok(e) =>
          if saveSucceeds then reply == Served(201, |old(events)|) && events == old(events) + [e]
          else reply == Refused(400, SaveFailed) && events == old(events)
    {
      var document := Validate(body, now);
      if document.Err? {
        reply := Refused(400, ValidationFailed(document.error));
      } else if !saveSucceeds {
        reply := Refused(400, SaveFailed);
      } else {
        reply := Served(201, |events|);
        events := events + [document.value];
      }
    }
  }

  /** The `sessionId` of each event, in store order. */
  function SessionIdsOf(events: seq<Event>): (ids: seq<string>)
    ensures |ids| == |events|
    ensures forall k :: 0 <= k < |events| ==> ids[k] == events[k].sessionId
  {
    seq(|events|, k requires 0 <= k < |events| => events[k].sessionId)
  }

  /** The `pageUrl` of each event, in store order. */
  function PageUrlsOf(events: seq<Event>): (urls: seq<string>)
    ensures |urls| == |events|
    ensures forall k :: 0 <= k < |events| ==> urls[k] == events[k].pageUrl
  {
    seq(|events|, k requires 0 <= k < |events| => events[k].pageUrl)
  }

  /** The events of session `id`, in store order. */
  function EventsOf(events: seq<Event>, id: string): (r: seq<Event>)
    ensures forall e :: e in r <==> e in events && e.sessionId == id
    ensures forall e :: multiset(r)[e] == if e.sessionId == id then multiset(events)[e] else 0
  {
    Filter(events, (e: Event) => e.sessionId == id)
  }

  /** The number of events of session `id` is the number of times `id` occurs as a session id. */
  lemma {:induction false} EventsOfCount(events: seq<Event>, id: string)
    ensures |EventsOf(events, id)| == multiset(SessionIdsOf(events))[id]
  {
    if events != [] {
      EventsOfCount(events[1..], id);
      assert SessionIdsOf(events) == [events[0].sessionId] + SessionIdsOf(events[1..]);
    }
  }

  /** The smallest timestamp among `es` (`$min`). */
  function Earliest(es: seq<Event>): (t: int)
    requires es != []
    ensures forall e :: e in es ==> t <= e.timestamp
    ensures exists e :: e in es && e.timestamp == t
  {
    if |es| == 1 then es[0].timestamp
    else
      var rest := Earliest(es[1..]);
      assert forall e :: e in es ==> e == es[0] || e in es[1..];
      if es[0].timestamp <= rest then es[0].timestamp else rest
  }

  /** The largest timestamp among `es` (`$max`). */
  function Latest(es: seq<Event>): (t: int)
    requires es != []
    ensures forall e :: e in es ==> e.timestamp <= t
    ensures exists e :: e in es && e.timestamp == t
  {
    if |es| == 1 then es[0].timestamp
    else
      var rest := Latest(es[1..]);
      assert forall e :: e in es ==> e == es[0] || e in es[1..];
      if rest <= es[0].timestamp then es[0].timestamp else rest
  }

  /** One row of GET /sessions. */
  datatype SessionSummary = SessionSummary(
    sessionId: string,
    eventCount: nat,
    firstSeen: int,
    lastSeen: int,
    pageCount: nat)

  /** The `$addToSet` of session `id`'s page URLs has as many members as the set of those URLs. */
  lemma DistinctPagesCount(events: seq<Event>, id: string)
    ensures |Dedup(PageUrlsOf(EventsOf(events, id)))|
            == |set e | e in events && e.sessionId == id :: e.pageUrl|
  {
    var es := EventsOf(events, id);
    var distinct := Dedup(PageUrlsOf(es));
    NoDupCardinality(distinct);
    assert (set u | u in distinct) == (set u | u in PageUrlsOf(es));
    PageUrlSet(es);
    assert (set e | e in es :: e.pageUrl) == (set e | e in events && e.sessionId == id :: e.pageUrl);
  }

  /** The page URLs listed for `es` are those of its events. */
  lemma PageUrlSet(es: seq<Event>)
    ensures (set u | u in PageUrlsOf(es)) == (set e | e in es :: e.pageUrl)
  {
    var pages := PageUrlsOf(es);
    forall u | u in pages ensures u in (set e | e in es :: e.pageUrl) {
      var k :| 0 <= k < |pages| && pages[k] == u;
      assert es[k] in es;
    }
    forall e | e in es ensures e.pageUrl in pages {
      var k :| 0 <= k < |es| && es[k] == e;
      assert pages[k] == e.pageUrl;
    }
  }

  /**
   * The `$group` stage for one session id: how many events it has, its
   * earliest and latest timestamp, and how many distinct pages it visited.
   */
  function Summarize(events: seq<Event>, id: string): (s: SessionSummary)
    requires id in SessionIdsOf(events)
    ensures s.sessionId == id
  {
    var es := EventsOf(events, id);
    var k :| 0 <= k < |events| && events[k].sessionId == id;
    assert events[k] in es;
    SessionSummary(id, |es|, Earliest(es), Latest(es), |Dedup(PageUrlsOf(es))|)
  }

  /**
   * A session's summary counts its events, brackets their timestamps by the
   * earliest and the latest of them, and counts the distinct pages among them.
   */
  lemma SummaryExact(events: seq<Event>, id: string)
    requires id in SessionIdsOf(events)
    ensures var s := Summarize(events, id);
      && s.eventCount == multiset(SessionIdsOf(events))[id]
      && (forall e :: e in events && e.sessionId == id ==> s.firstSeen <= e.timestamp <= s.lastSeen)
      && (exists e :: e in events && e.sessionId == id && e.timestamp == s.firstSeen)
      && (exists e :: e in events && e.sessionId == id && e.timestamp == s.lastSeen)
      && s.pageCount == |set e | e in events && e.sessionId == id :: e.pageUrl|
  {
    EventsOfCount(events, id);
    DistinctPagesCount(events, id);
  }

  /** Every session visited at least one page and at most one page per event. */
  lemma PageCountBounds(events: seq<Event>, id: string)
    requires id in SessionIdsOf(events)
    ensures 1 <= Summarize(events, id).pageCount <= Summarize(events, id).eventCount
    ensures Summarize(events, id).firstSeen <= Summarize(events, id).lastSeen
  {
    var es := EventsOf(events, id);
    var k :| 0 <= k < |events| && events[k].sessionId == id;
    assert events[k] in es;
    assert es[0].pageUrl in Dedup(PageUrlsOf(es)) by {
      assert PageUrlsOf(es)[0] == es[0].pageUrl;
    }
  }

  /** One summary per id of `ids`, in the order of `ids`. */
  function Summaries(events: seq<Event>, ids: seq<string>): (r: seq<SessionSummary>)
    requires forall id :: id in ids ==> id in SessionIdsOf(events)
    ensures |r| == |ids|
    ensures forall k :: 0 <= k < |ids| ==> r[k] == Summarize(events, ids[k])
  {
    seq(|ids|, k requires 0 <= k < |ids| => Summarize(events, ids[k]))
  }

  /** The summaries of `ids` are the summary of its first id followed by those of the rest. */
  lemma SummariesCons(events: seq<Event>, ids: seq<string>)
    requires forall id :: id in ids ==> id in SessionIdsOf(events)
    requires ids != []
    ensures Summaries(events, ids) == [Summarize(events, ids[0])] + Summaries(events, ids[1..])
  {
    var r, rest := Summaries(events, ids), Summaries(events, ids[1..]);
    forall k | 0 <= k < |rest| ensures r[k + 1] == rest[k] {
      assert ids[1..][k] == ids[k + 1];
    }
    ConsByIndex(r, rest);
  }

  /** The sort key of `{ lastSeen: -1 }`: ascending in it is descending in `lastSeen`. */
  function LastSeenDescending(s: SessionSummary): int {
    -s.lastSeen
  }

  /** The distinct session ids of the store. */
  function DistinctSessionIds(events: seq<Event>): seq<string> {
    Dedup(SessionIdsOf(events))
  }

  /** GET /sessions: one summary per session id, most recently active first. */
  function Sessions(events: seq<Event>): (r: seq<SessionSummary>)
    ensures |r| == |DistinctSessionIds(events)|
  {
    SortBy(Summaries(events, DistinctSessionIds(events)), LastSeenDescending)
  }

  /** The summaries come most recently active first. */
  lemma SessionsOrdered(events: seq<Event>)
    ensures var r := Sessions(events);
      forall i, j :: 0 <= i < j < |r| ==> r[i].lastSeen >= r[j].lastSeen
  {
    var r := Sessions(events);
    assert forall i, j :: 0 <= i < j < |r| ==> LastSeenDescending(r[i]) <= LastSeenDescending(r[j]);
  }

  lemma InSummaries(events: seq<Event>, ids: seq<string>, s: SessionSummary)
    requires forall id :: id in ids ==> id in SessionIdsOf(events)
    requires s in multiset(Summaries(events, ids))
    ensures s.sessionId in ids && s == Summarize(events, s.sessionId)
  {
    var grouped := Summaries(events, ids);
    var k :| 0 <= k < |grouped| && grouped[k] == s;
    assert ids[k] in ids;
  }

  /** Every row is the summary of a session id that occurs in the store. */
  lemma SessionsAreSummaries(events: seq<Event>)
    ensures forall s :: s in Sessions(events) ==>
      s.sessionId in SessionIdsOf(events) && s == Summarize(events, s.sessionId)
  {
    var ids := DistinctSessionIds(events);
    var r := Sessions(events);
    assert multiset(r) == multiset(Summaries(events, ids));
    forall s | s in r
      ensures s.sessionId in SessionIdsOf(events) && s == Summarize(events, s.sessionId)
    {
      assert s in multiset(r);
      InSummaries(events, ids, s);
    }
  }

  /** Every session of the store has a row. */
  lemma SessionsCoverStore(events: seq<Event>)
    ensures forall e :: e in events ==> exists s :: s in Sessions(events) && s.sessionId == e.sessionId
  {
    forall e | e in events ensures exists s :: s in Sessions(events) && s.sessionId == e.sessionId {
      var k :| 0 <= k < |events| && events[k] == e;
      assert SessionIdsOf(events)[k] == e.sessionId;
      SessionRowFor(events, e.sessionId);
    }
  }

  lemma SessionRowFor(events: seq<Event>, id: string)
    requires id in SessionIdsOf(events)
    ensures exists s :: s in Sessions(events) && s.sessionId == id
  {
    var ids := DistinctSessionIds(events);
    SummariesKeys(events, ids);
    RowWithKey(ids, Summaries(events, ids), Sessions(events), id);
  }

  /** Row `k` of the grouped summaries is keyed by `ids[k]`. */
  lemma SummariesKeys(events: seq<Event>, ids: seq<string>)
    requires forall id :: id in ids ==> id in SessionIdsOf(events)
    ensures forall k :: 0 <= k < |ids| ==> Summaries(events, ids)[k].sessionId == ids[k]
  {
  }

  /** A row whose key is `id` survives any reordering of the rows. */
  lemma RowWithKey(ids: seq<string>, grouped: seq<SessionSummary>, r: seq<SessionSummary>, id: string)
    requires |grouped| == |ids| && id in ids
    requires forall k :: 0 <= k < |grouped| ==> grouped[k].sessionId == ids[k]
    requires multiset(r) == multiset(grouped)
    ensures exists s :: s in r && s.sessionId == id
  {
    var j :| 0 <= j < |ids| && ids[j] == id;
    assert grouped[j] in multiset(r);
  }

  /** No session id has two rows. */
  lemma SessionsDistinct(events: seq<Event>)
    ensures var r := Sessions(events);
      forall i, j :: 0 <= i < j < |r| ==> r[i].sessionId != r[j].sessionId
  {
    var ids := DistinctSessionIds(events);
    var grouped := Summaries(events, ids);
    var r := Sessions(events);
    assert NoDup(grouped) by {
      forall i, j | 0 <= i < j < |grouped| ensures grouped[i] != grouped[j] {
        assert grouped[i].sessionId == ids[i];
      }
    }
    NoDupPermutation(grouped, r);
    SessionsAreSummaries(events);
    forall i, j | 0 <= i < j < |r| ensures r[i].sessionId != r[j].sessionId {
      assert r[i] in r && r[j] in r;
    }
  }

  /** The sum of the summaries' event counts. */
  function TotalEvents(ss: seq<SessionSummary>): nat {
    if ss == [] then 0 else ss[0].eventCount + TotalEvents(ss[1..])
  }

  lemma {:induction false} TotalEventsInsert(x: SessionSummary, ss: seq<SessionSummary>)
    ensures TotalEvents(InsertBy(x, ss, LastSeenDescending)) == x.eventCount + TotalEvents(ss)
  {
    if ss != [] && LastSeenDescending(ss[0]) < LastSeenDescending(x) {
      TotalEventsInsert(x, ss[1..]);
    }
  }

  lemma {:induction false} TotalEventsSorted(ss: seq<SessionSummary>)
    ensures TotalEvents(SortBy(ss, LastSeenDescending)) == TotalEvents(ss)
  {
    if ss != [] {
      TotalEventsSorted(ss[1..]);
      TotalEventsInsert(ss[0], SortBy(ss[1..], LastSeenDescending));
    }
  }

  lemma {:induction false} TotalEventsOfSummaries(events: seq<Event>, ids: seq<string>)
    requires forall id :: id in ids ==> id in SessionIdsOf(events)
    ensures TotalEvents(Summaries(events, ids)) == SumCounts(ids, SessionIdsOf(events))
  {
    if ids != [] {
      TotalEventsOfSummaries(events, ids[1..]);
      SummaryExact(events, ids[0]);
      SummariesCons(events, ids);
    }
  }

  /** The session event counts add up to the number of stored events. */
  lemma SessionCountsSum(events: seq<Event>)
    ensures TotalEvents(Sessions(events)) == |events|
  {
    var ids := DistinctSessionIds(events);
    TotalEventsSorted(Summaries(events, ids));
    TotalEventsOfSummaries(events, ids);
    CountsPartition(ids, SessionIdsOf(events));
  }

  /** The sort key of `{ timestamp: 1 }`. */
  function Timestamp(e: Event): int {
    e.timestamp
  }

  /**
   * GET /sessions/:sessionId: exactly the stored events of that session,
   * oldest first.
   */
  function SessionEvents(events: seq<Event>, id: string): (r: seq<Event>)
    ensures forall i, j :: 0 <= i < j < |r| ==> r[i].timestamp <= r[j].timestamp
    ensures forall e :: multiset(r)[e] == if e.sessionId == id then multiset(events)[e] else 0
    ensures forall e :: e in r <==> e in events && e.sessionId == id
  {
    var r := SortBy(EventsOf(events, id), Timestamp);
    assert forall i, j :: 0 <= i < j < |r| ==> Timestamp(r[i]) <= Timestamp(r[j]);
    assert forall e :: e in r <==> e in multiset(EventsOf(events, id));
    r
  }

  /** An unknown session id gives an empty list, not an error. */
  lemma UnknownSessionIsEmpty(events: seq<Event>, id: string)
    requires id !in SessionIdsOf(events)
    ensures SessionEvents(events, id) == []
  {
  }

  /** The query of GET /heatmap: a click on `pageUrl` that has both coordinates. */
  predicate IsHeatmapClick(pageUrl: string, e: Event) {
    e.pageUrl == pageUrl && e.eventType == Click && e.clickX.Some? && e.clickY.Some?
  }

  /** The filter document `{ pageUrl, eventType: "click", clickX: { $exists: true }, clickY: { $exists: true } }`. */
  function HeatmapQuery(pageUrl: string): Event -> bool {
    (e: Event) => IsHeatmapClick(pageUrl, e)
  }

  /** The body of a successful GET /heatmap. */
  datatype HeatmapData = HeatmapData(clicks: seq<Event>, totalClicks: nat)

  /**
   * GET /heatmap?pageUrl=: a missing or empty `pageUrl` is refused with 400
   * before the store is consulted; otherwise every stored event the query
   * matches, with their number.
   */
  function Heatmap(events: seq<Event>, pageUrl: Option<string>): (r: Reply<HeatmapData>)
    ensures r.Refused? <==> Missing(pageUrl)
    ensures r.Refused? ==> r == Refused(400, MissingParameter("pageUrl"))
    ensures r.Served? ==> r.status == 200 && r.value.totalClicks == |r.value.clicks|
    ensures r.Served? ==> forall e :: multiset(r.value.clicks)[e]
                                  == if IsHeatmapClick(pageUrl.value, e) then multiset(events)[e] else 0
  {
    if Missing(pageUrl) then Refused(400, MissingParameter("pageUrl"))
    else
      var clicks := Filter(events, HeatmapQuery(pageUrl.value));
      Served(200, HeatmapData(clicks, |clicks|))
  }

  /** GET /pages: every page URL present in the store, each once. */
  function Pages(events: seq<Event>): (r: seq<string>)
    ensures NoDup(r)
    ensures forall u :: u in r <==> exists e :: e in events && e.pageUrl == u
  {
    var urls := PageUrlsOf(events);
    assert forall u :: u in urls <==> exists e :: e in events && e.pageUrl == u by {
      forall u | u in urls ensures exists e :: e in events && e.pageUrl == u {
        var k :| 0 <= k < |urls| && urls[k] == u;
        assert events[k] in events;
      }
      forall e | e in events ensures e.pageUrl in urls {
        var k :| 0 <= k < |events| && events[k] == e;
        assert urls[k] == e.pageUrl;
      }
    }
    Dedup(urls)
  }

  /**
   * An appended event is visible to every read route: its session gains one
   * event and lists it, and its page is listed.
   */
  lemma AppendedEventVisible(events: seq<Event>, e: Event)
    ensures multiset(SessionIdsOf(events + [e]))[e.sessionId] == multiset(SessionIdsOf(events))[e.sessionId] + 1
    ensures e in SessionEvents(events + [e], e.sessionId)
    ensures e.pageUrl in Pages(events + [e])
  {
    assert SessionIdsOf(events + [e]) == SessionIdsOf(events) + [e.sessionId];
    assert e in events + [e];
  }

  /**
   * Stores holding the same events in different orders give the same session
   * events as a multiset: each event as many times (each result is sorted by
   * timestamp; the order among equal timestamps follows the store).
   */
  lemma SessionEventsIgnoreArrivalOrder(a: seq<Event>, b: seq<Event>, id: string)
    requires multiset(a) == multiset(b)
    ensures multiset(SessionEvents(a, id)) == multiset(SessionEvents(b, id))
  {
    var ra, rb := SessionEvents(a, id), SessionEvents(b, id);
    assert forall e :: multiset(ra)[e] == multiset(rb)[e];
  }

  /** The events of the worked example below: s1 clicks /a and then views it, s2 views /b later. */
  function ExampleEvents(): seq<Event> {
    [Event("s1", Click, "/a", 0, Some(10), Some(20), None, None, None),
     Event("s1", PageView, "/a", 1, None, None, None, None, None),
     Event("s2", PageView, "/b", 2, None, None, None, None, None)]
  }

  lemma ExampleGroups()
    ensures EventsOf(ExampleEvents(), "s1") == ExampleEvents()[..2]
    ensures EventsOf(ExampleEvents(), "s2") == ExampleEvents()[2..]
  {
    var events := ExampleEvents();
    assert events[1..] == events[1..2] + events[2..];
    var p1 := (e: Event) => e.sessionId == "s1";
    var p2 := (e: Event) => e.sessionId == "s2";
    assert Filter(events[2..], p1) == [] by {
      assert events[2..][1..] == [];
    }
    assert Filter(events[1..], p1) == [events[1]];
    assert Filter(events, p1) == events[..2];
    assert Filter(events[2..], p2) == events[2..] by {
      assert events[2..][1..] == [];
    }
    assert Filter(events[1..], p2) == events[2..];
  }

  lemma ExampleSessionIds()
    ensures DistinctSessionIds(ExampleEvents()) == ["s1", "s2"]
  {
    var ids: seq<string> := ["s1", "s1", "s2"];
    assert SessionIdsOf(ExampleEvents()) == ids;
    assert ids[1..] == ["s1", "s2"] && ids[1..][1..] == ["s2"];
  }

  lemma ExampleFirstSession()
    ensures "s1" in SessionIdsOf(ExampleEvents())
    ensures Summarize(ExampleEvents(), "s1") == SessionSummary("s1", 2, 0, 1, 1)
  {
    var events := ExampleEvents();
    ExampleGroups();
    assert SessionIdsOf(events)[0] == "s1";
    assert PageUrlsOf(events[..2]) == ["/a", "/a"];
  }

  lemma ExampleSecondSession()
    ensures "s2" in SessionIdsOf(ExampleEvents())
    ensures Summarize(ExampleEvents(), "s2") == SessionSummary("s2", 1, 2, 2, 1)
  {
    var events := ExampleEvents();
    ExampleGroups();
    assert SessionIdsOf(events)[2] == "s2";
    assert PageUrlsOf(events[2..]) == ["/b"];
  }

  lemma ExampleSummaries()
    ensures Summaries(ExampleEvents(), DistinctSessionIds(ExampleEvents()))
            == [SessionSummary("s1", 2, 0, 1, 1), SessionSummary("s2", 1, 2, 2, 1)]
  {
    ExampleSessionIds();
    ExampleFirstSession();
    ExampleSecondSession();
    SummariesOfTwo(ExampleEvents(), "s1", "s2");
  }

  lemma SummariesOfTwo(events: seq<Event>, a: string, b: string)
    requires a in SessionIdsOf(events) && b in SessionIdsOf(events)
    ensures Summaries(events, [a, b]) == [Summarize(events, a), Summarize(events, b)]
  {
    SummariesCons(events, [a, b]);
    assert [a, b][1..] == [b];
    SummariesOfOne(events, b);
  }

  lemma SummariesOfOne(events: seq<Event>, a: string)
    requires a in SessionIdsOf(events)
    ensures Summaries(events, [a]) == [Summarize(events, a)]
  {
    var r := Summaries(events, [a]);
    assert r == [r[0]];
  }

  /** s2 was active last, so it is listed first. */
  lemma ExampleOrder()
    ensures SortBy([SessionSummary("s1", 2, 0, 1, 1), SessionSummary("s2", 1, 2, 2, 1)], LastSeenDescending)
            == [SessionSummary("s2", 1, 2, 2, 1), SessionSummary("s1", 2, 0, 1, 1)]
  {
    var s1, s2 := SessionSummary("s1", 2, 0, 1, 1), SessionSummary("s2", 1, 2, 2, 1);
    var grouped := [s1, s2];
    assert grouped[1..] == [s2] && grouped[1..][1..] == [];
    assert SortBy(grouped[1..], LastSeenDescending) == [s2];
    assert [s2][1..] == [];
    assert InsertBy(s1, [s2], LastSeenDescending) == [s2, s1];
  }

  /**
   * The sessions of the example: s2, with one event on one page, comes
   * before s1, with two events on one page.
   */
  lemma ExampleSessions()
    ensures Sessions(ExampleEvents()) == [SessionSummary("s2", 1, 2, 2, 1), SessionSummary("s1", 2, 0, 1, 1)]
  {
    ExampleSummaries();
    ExampleOrder();
  }

  /** The heatmap of /a in the example holds its one click. */
  lemma ExampleHeatmap()
    ensures Heatmap(ExampleEvents(), Some("/a")) == Served(200, HeatmapData(ExampleEvents()[..1], 1))
  {
    ExampleClicks();
  }

  lemma ExampleClicks()
    ensures Filter(ExampleEvents(), HeatmapQuery("/a")) == ExampleEvents()[..1]
  {
    var events := ExampleEvents();
    var p := HeatmapQuery("/a");
    assert events[1..][1..] == events[2..] && events[2..][1..] == [];
    FilterSkips(events[2..], p);
    FilterSkips(events[1..], p);
    FilterKeeps(events, p);
  }
}
