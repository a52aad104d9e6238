/**
 * The browser collector (tracking/tracker.js): the session id kept in
 * `localStorage` with a 30-minute inactivity timeout, the event payloads it
 * sends, and the observer that reports single-page-application navigations.
 * The clock (`Date.now()`) and the random suffix of a new id are parameters;
 * sending a payload is modelled by returning it.
 */
module Tracker {
  import opened Options
  import opened Numerals
  import opened Json
  import opened EventModel

  const SESSION_ID_KEY: string := "analytics_session_id"
  const LAST_ACTIVITY_KEY: string := "analytics_last_activity"
  /** 30 minutes, in milliseconds. */
  const SESSION_TIMEOUT: int := 30 * 60 * 1000

  /** The page's `localStorage`: string keys to string values. */
  class Storage {
    var items: map<string, string>

    constructor (items: map<string, string>)
      ensures this.items == items
    {
      this.items := items;
    }

    /** `getItem(key)`: `None` stands for `null`. */
    function GetItem(key: string): (v: Option<string>)
      reads this
      ensures v.Some? <==> key in items
      ensures v.Some? ==> v.value == items[key]
    {
      Lookup(items, key)
    }

    method SetItem(key: string, value: string)
      modifies this
      ensures items == old(items)[key := value]
    {
      items := items[key := value];
    }
  }

  /**
   * `now - parseInt(lastActivity, 10) > sessionTimeout`. When the stored value
   * does not parse, the difference is NaN and the comparison is false.
   */
  predicate TimedOut(lastActivity: string, now: int): (r: bool)
    ensures r ==> ParseInt(lastActivity).Some?
    ensures r ==> now - ParseInt(lastActivity).value > SESSION_TIMEOUT
  {
    match ParseInt(lastActivity)
    case None => false
    case Some(last) => now - last > SESSION_TIMEOUT
  }

  /** The value under `key`, `None` when there is none. */
  function Lookup(items: map<string, string>, key: string): Option<string> {
    if key in items then Some(items[key]) else None
  }

  /**
   * A new id is minted when either key is missing or empty (`!x` is true for
   * `null` and `""`), or the session timed out.
   */
  predicate MustMint(items: map<string, string>, now: int): (r: bool)
    ensures !r ==> SESSION_ID_KEY in items && items[SESSION_ID_KEY] != ""
    ensures !r ==> LAST_ACTIVITY_KEY in items && items[LAST_ACTIVITY_KEY] != ""
    ensures SESSION_ID_KEY !in items || LAST_ACTIVITY_KEY !in items ==> r
  {
    var sessionId := Lookup(items, SESSION_ID_KEY);
    var lastActivity := Lookup(items, LAST_ACTIVITY_KEY);
    Missing(sessionId) || Missing(lastActivity) || TimedOut(lastActivity.value, now)
  }

  /** A new id: `"sess_" + now + "_" + suffix`, where `suffix` stands for the random part. */
  function MintId(now: int, suffix: string): (id: string)
    ensures |id| > 6 + |suffix| && id[..5] == "sess_"
    ensures id[|id| - |suffix|..] == suffix
  {
    "sess_" + DecimalString(now) + "_" + suffix
  }

  /** The id `getSessionId` returns when called at `now` on `items`. */
  function NextSessionId(items: map<string, string>, now: int, suffix: string): (id: string)
    ensures id != ""
  {
    if MustMint(items, now) then MintId(now, suffix) else items[SESSION_ID_KEY]
  }

  /**
   * The storage after `getSessionId` at `now`: the returned id under the id
   * key (rewritten only when minted), `now` under the last-activity key, and
   * every other key as it was.
   */
  function NextItems(items: map<string, string>, now: int, suffix: string): (r: map<string, string>)
    ensures r.Keys == items.Keys + {SESSION_ID_KEY, LAST_ACTIVITY_KEY}
    ensures r[SESSION_ID_KEY] == NextSessionId(items, now, suffix)
    ensures r[LAST_ACTIVITY_KEY] == DecimalString(now)
    ensures forall key :: key in items && key != SESSION_ID_KEY && key != LAST_ACTIVITY_KEY ==> r[key] == items[key]
  {
    var withId := if MustMint(items, now) then items[SESSION_ID_KEY := MintId(now, suffix)] else items;
    withId[LAST_ACTIVITY_KEY := DecimalString(now)]
  }

  /** `getSessionId()` at instant `now`, with `suffix` as the random part of a new id. */
  method GetSessionId(storage: Storage, now: int, suffix: string) returns (id: string)
    modifies storage
    ensures id == NextSessionId(old(storage.items), now, suffix)
    ensures storage.items == NextItems(old(storage.items), now, suffix)
  {
    var sessionId := storage.GetItem(SESSION_ID_KEY);
    var lastActivity := storage.GetItem(LAST_ACTIVITY_KEY);
    if Missing(sessionId) || Missing(lastActivity) || TimedOut(lastActivity.value, now) {
      id := MintId(now, suffix);
      storage.SetItem(SESSION_ID_KEY, id);
    } else {
      id := sessionId.value;
    }
    storage.SetItem(LAST_ACTIVITY_KEY, DecimalString(now));
  }

  /** With either key missing or empty, a new id is minted and stored. */
  lemma MintsWhenMissing(items: map<string, string>, now: int, suffix: string)
    requires Missing(Lookup(items, SESSION_ID_KEY)) || Missing(Lookup(items, LAST_ACTIVITY_KEY))
    ensures NextSessionId(items, now, suffix) == MintId(now, suffix)
    ensures NextItems(items, now, suffix)[SESSION_ID_KEY] == MintId(now, suffix)
  {
  }

  /**
   * With an id stored and a last activity that `parseInt` reads as `last`, a
   * call no more than 30 minutes later (exactly 30 minutes included) keeps
   * the stored id and leaves the id key as it was.
   */
  lemma ReusesWithinTimeout(items: map<string, string>, last: int, now: int, suffix: string)
    requires !Missing(Lookup(items, SESSION_ID_KEY)) && !Missing(Lookup(items, LAST_ACTIVITY_KEY))
    requires ParseInt(items[LAST_ACTIVITY_KEY]) == Some(last)
    requires now - last <= SESSION_TIMEOUT
    ensures NextSessionId(items, now, suffix) == items[SESSION_ID_KEY]
    ensures NextItems(items, now, suffix)[SESSION_ID_KEY] == items[SESSION_ID_KEY]
  {
  }

  /** More than 30 minutes after a last activity that `parseInt` reads as `last`, a new id is minted. */
  lemma MintsAfterTimeout(items: map<string, string>, last: int, now: int, suffix: string)
    requires LAST_ACTIVITY_KEY in items && ParseInt(items[LAST_ACTIVITY_KEY]) == Some(last)
    requires now - last > SESSION_TIMEOUT
    ensures NextSessionId(items, now, suffix) == MintId(now, suffix)
  {
  }

  /** A last-activity value that is not a number never times out: the stored id is kept. */
  lemma CorruptActivityKeepsId(items: map<string, string>, now: int, suffix: string)
    requires !Missing(Lookup(items, SESSION_ID_KEY)) && !Missing(Lookup(items, LAST_ACTIVITY_KEY))
    requires ParseInt(items[LAST_ACTIVITY_KEY]) == None
    ensures NextSessionId(items, now, suffix) == items[SESSION_ID_KEY]
  {
  }

  /** Two calls at most 30 minutes apart return the same id. */
  lemma ActivityKeepsSession(items: map<string, string>, first: int, second: int, s1: string, s2: string)
    requires second - first <= SESSION_TIMEOUT
    ensures NextSessionId(NextItems(items, first, s1), second, s2) == NextSessionId(items, first, s1)
  {
    ParseDecimalString(first);
    ReusesWithinTimeout(NextItems(items, first, s1), first, second, s2);
  }

  /**
   * Two calls more than 30 minutes apart: the second mints an id, and it
   * differs from the first call's id whenever that one was minted too.
   */
  lemma InactivityRenewsSession(items: map<string, string>, first: int, second: int, s1: string, s2: string)
    requires second - first > SESSION_TIMEOUT
    ensures NextSessionId(NextItems(items, first, s1), second, s2) == MintId(second, s2)
    ensures MustMint(items, first) ==> MintId(second, s2) != NextSessionId(items, first, s1)
  {
    ParseDecimalString(first);
    MintsAfterTimeout(NextItems(items, first, s1), first, second, s2);
    if MustMint(items, first) && MintId(second, s2) == MintId(first, s1) {
      MintIdInjective(second, s2, first, s1);
    }
  }

  /** The instant and the suffix can be read back from a minted id. */
  lemma MintIdInjective(n1: int, s1: string, n2: int, s2: string)
    requires MintId(n1, s1) == MintId(n2, s2)
    ensures n1 == n2 && s1 == s2
  {
    var d1, d2 := DecimalString(n1), DecimalString(n2);
    var id := MintId(n1, s1);
    assert id == "sess_" + d1 + "_" + s1;
    assert id == "sess_" + d2 + "_" + s2;
    assert id[5 + |d1|] == '_' && id[5 + |d2|] == '_';
    assert |d1| == |d2|;
    assert d1 == id[5..5 + |d1|];
    assert d2 == id[5..5 + |d2|];
    assert s1 == id[6 + |d1|..] == s2;
    DecimalStringInjective(n1, n2);
  }

  /** What `window.location`, `navigator` and `window.screen` show at the moment of capture. */
  datatype Page = Page(href: string, userAgent: string, screenWidth: int, screenHeight: int)

  /** The fields `sendEvent` puts before the caller's. */
  function DefaultFields(sessionId: string, page: Page, now: int): (r: Payload)
    ensures r.Keys == {"sessionId", "pageUrl", "timestamp", "userAgent", "screenWidth", "screenHeight"}
  {
    map[
      "sessionId" := Text(sessionId),
      "pageUrl" := Text(page.href),
      "timestamp" := Instant(now),
      "userAgent" := Text(page.userAgent),
      "screenWidth" := Number(page.screenWidth),
      "screenHeight" := Number(page.screenHeight)]
  }

  /**
   * `{...defaults, ...eventData}`: every field of either object, the caller's
   * value winning where both have one.
   */
  function Spread(defaults: Payload, eventData: Payload): (r: Payload)
    ensures r.Keys == defaults.Keys + eventData.Keys
    ensures forall key :: key in eventData ==> r[key] == eventData[key]
    ensures forall key :: key in defaults && key !in eventData ==> r[key] == defaults[key]
  {
    defaults + eventData
  }

  /** The fields `trackPageView` passes. */
  function PageViewData(): (r: Payload)
    ensures r.Keys == {"eventType"}
  {
    map["eventType" := Text(PAGE_VIEW)]
  }

  /** The fields `trackClick` passes for a click at document position (`pageX`, `pageY`). */
  function ClickData(pageX: int, pageY: int): (r: Payload)
    ensures r.Keys == {"eventType", "clickX", "clickY"}
    ensures r["clickX"] == Number(pageX) && r["clickY"] == Number(pageY)
  {
    map["eventType" := Text(CLICK), "clickX" := Number(pageX), "clickY" := Number(pageY)]
  }

  /**
   * `sendEvent(eventData)`: refreshes the session, then returns the payload it
   * hands to the beacon (or to `fetch`).
   */
  method SendEvent(storage: Storage, page: Page, now: int, suffix: string, eventData: Payload)
    returns (payload: Payload)
    modifies storage
    ensures storage.items == NextItems(old(storage.items), now, suffix)
    ensures payload == Spread(DefaultFields(NextSessionId(old(storage.items), now, suffix), page, now), eventData)
  {
    var sessionId := GetSessionId(storage, now, suffix);
    payload := Spread(DefaultFields(sessionId, page, now), eventData);
  }

  method TrackPageView(storage: Storage, page: Page, now: int, suffix: string) returns (payload: Payload)
    modifies storage
    ensures storage.items == NextItems(old(storage.items), now, suffix)
    ensures payload == Spread(DefaultFields(NextSessionId(old(storage.items), now, suffix), page, now), PageViewData())
  {
    payload := SendEvent(storage, page, now, suffix, PageViewData());
  }

  method TrackClick(storage: Storage, page: Page, now: int, suffix: string, pageX: int, pageY: int)
    returns (payload: Payload)
    modifies storage
    ensures storage.items == NextItems(old(storage.items), now, suffix)
    ensures payload == Spread(DefaultFields(NextSessionId(old(storage.items), now, suffix), page, now), ClickData(pageX, pageY))
  {
    payload := SendEvent(storage, page, now, suffix, ClickData(pageX, pageY));
  }

  /** A page-view payload names its type and carries no coordinates. */
  lemma PageViewPayloadShape(sessionId: string, page: Page, now: int)
    ensures var p := Spread(DefaultFields(sessionId, page, now), PageViewData());
      && p["eventType"] == Text(PAGE_VIEW)
      && "clickX" !in p && "clickY" !in p
      && p["sessionId"] == Text(sessionId) && p["pageUrl"] == Text(page.href)
      && p["timestamp"] == Instant(now)
      && p["userAgent"] == Text(page.userAgent)
      && p["screenWidth"] == Number(page.screenWidth) && p["screenHeight"] == Number(page.screenHeight)
  {
  }

  /** A click payload names its type and carries the pointer's document position. */
  lemma ClickPayloadShape(sessionId: string, page: Page, now: int, pageX: int, pageY: int)
    ensures var p := Spread(DefaultFields(sessionId, page, now), ClickData(pageX, pageY));
      && p["eventType"] == Text(CLICK)
      && p["clickX"] == Number(pageX) && p["clickY"] == Number(pageY)
      && p["sessionId"] == Text(sessionId) && p["pageUrl"] == Text(page.href)
      && p["timestamp"] == Instant(now)
      && p["userAgent"] == Text(page.userAgent)
      && p["screenWidth"] == Number(page.screenWidth) && p["screenHeight"] == Number(page.screenHeight)
  {
  }

  /**
   * The server stores a page view the tracker sends as it was captured: the
   * session id, the page, the capture instant, no coordinates, and the
   * client metadata.
   */
  lemma PageViewAccepted(sessionId: string, page: Page, now: int, serverNow: int)
    requires sessionId != "" && page.href != ""
    ensures var p := Spread(DefaultFields(sessionId, page, now), PageViewData());
      && WellTyped(p)
      && Validate(Receive(p), serverNow)
         == Ok(Event(sessionId, PageView, page.href, now, None, None,
                     Some(page.userAgent), Some(page.screenWidth), Some(page.screenHeight)))
  {
    PageViewReceived(sessionId, page, now);
  }

  /** How the server reads a page-view payload. */
  lemma PageViewReceived(sessionId: string, page: Page, now: int)
    ensures var p := Spread(DefaultFields(sessionId, page, now), PageViewData());
      && WellTyped(p)
      && Receive(p) == Incoming(Some(sessionId), Some(PAGE_VIEW), Some(page.href), Some(now), None, None,
                                Some(page.userAgent), Some(page.screenWidth), Some(page.screenHeight))
  {
    PageViewPayloadShape(sessionId, page, now);
  }

  /** The server stores a click the tracker sends, with its coordinates. */
  lemma ClickAccepted(sessionId: string, page: Page, now: int, pageX: int, pageY: int, serverNow: int)
    requires sessionId != "" && page.href != ""
    ensures var p := Spread(DefaultFields(sessionId, page, now), ClickData(pageX, pageY));
      && WellTyped(p)
      && Validate(Receive(p), serverNow)
         == Ok(Event(sessionId, Click, page.href, now, Some(pageX), Some(pageY),
                     Some(page.userAgent), Some(page.screenWidth), Some(page.screenHeight)))
  {
    ClickReceived(sessionId, page, now, pageX, pageY);
  }

  /** How the server reads a click payload. */
  lemma ClickReceived(sessionId: string, page: Page, now: int, pageX: int, pageY: int)
    ensures var p := Spread(DefaultFields(sessionId, page, now), ClickData(pageX, pageY));
      && WellTyped(p)
      && Receive(p) == Incoming(Some(sessionId), Some(CLICK), Some(page.href), Some(now), Some(pageX), Some(pageY),
                                Some(page.userAgent), Some(page.screenWidth), Some(page.screenHeight))
  {
    ClickPayloadShape(sessionId, page, now, pageX, pageY);
  }

  /**
   * `trackEvent` data that sets an `eventType` outside the enum is sent as
   * given and refused by the server.
   */
  lemma CustomTypeRefused(sessionId: string, page: Page, now: int, eventData: Payload, serverNow: int)
    requires "eventType" in eventData && eventData["eventType"].Text?
    requires eventData["eventType"].text != PAGE_VIEW && eventData["eventType"].text != CLICK
    requires WellTyped(Spread(DefaultFields(sessionId, page, now), eventData))
    ensures Validate(Receive(Spread(DefaultFields(sessionId, page, now), eventData)), serverNow).Err?
  {
  }

  /**
   * The single-page-application navigation detector: `lastUrl` and the
   * mutation callback that compares the current URL against it.
   */
  class PageWatcher {
    var lastUrl: string
    /** The URL at `init`. */
    ghost const initialUrl: string
    /** The URLs of the page views this watcher has sent, oldest first. */
    ghost var views: seq<string>

    /**
     * The last view is of the current `lastUrl`, the first is of a URL other
     * than the initial one, and no two consecutive views are of the same URL.
     */
    ghost predicate Valid()
      reads this
    {
      && (views != [] ==> views[|views| - 1] == lastUrl && views[0] != initialUrl)
      && (views == [] ==> lastUrl == initialUrl)
      && forall k :: 0 < k < |views| ==> views[k - 1] != views[k]
    }

    /** `let lastUrl = window.location.href` in `init`. */
    constructor (href: string)
      ensures Valid() && lastUrl == href && initialUrl == href && views == []
    {
      lastUrl := href;
      initialUrl := href;
      views := [];
    }

    /**
     * The observer callback after a batch of DOM mutations, with the page as
     * it now is: a page view is sent exactly when the URL changed, and the
     * URL becomes the new `lastUrl` either way.
     */
    method OnMutation(storage: Storage, page: Page, now: int, suffix: string) returns (sent: Option<Payload>)
      requires Valid()
      modifies this, storage
      ensures Valid()
      ensures lastUrl == page.href
      ensures sent.Some? <==> page.href != old(lastUrl)
      ensures views == old(views) + if sent.Some? then [page.href] else []
      ensures sent.Some? ==> && storage.items == NextItems(old(storage.items), now, suffix)
                             && sent.value == Spread(DefaultFields(NextSessionId(old(storage.items), now, suffix), page, now),
                                                     PageViewData())
      ensures sent.None? ==> storage.items == old(storage.items)
    {
      if page.href != lastUrl {
        lastUrl := page.href;
        var payload := TrackPageView(storage, page, now, suffix);
        sent := Some(payload);
        views := views + [page.href];
      } else {
        sent := None;
      }
    }
  }
}
