/**
 `RequestHandler` (speedport_Time.py:17-62): one Firefox session kept
 alive across polls, and `get_values`, which reloads the router's status
 page and reads the time-limit fields from it.

 The browser is abstract. A `Session` records whether the browser still
 answers (Selenium's `current_url` raising `WebDriverException` is a dead
 session) and which URL it shows; the page's DOM after the settle delay is
 a map from element id to what Selenium reports of that element; whether a
 new Firefox can be started is a parameter. The driver calls the step makes
 are returned as a list of `Action`s.
 */
module RequestHandler {
  import opened Wrappers
  import opened ScrapedValues

  /** What `find_element` yields for a present element: `is_displayed()` and `.text`. */
  datatype Element = Element(displayed: bool, text: string)

  /** The rendered page: element id to element; an absent id raises `NoSuchElementException`. */
  type Dom = map<string, Element>

  datatype Session = Session(alive: bool, currentUrl: string)

  /** Driver calls: `webdriver.Firefox(...)`, `get(url)` and `refresh()`. */
  datatype Action = Launch | Load(url: string) | Refresh

  /**
   The exceptions that leave `get_values`: Firefox could not be started,
   or one of the three leading elements is missing.
   */
  datatype Fault = SessionUnavailable | NoSuchElement(id: string)

  datatype Outcome = Returned(values: Values) | Raised(fault: Fault)

  /** The session after a step, the driver calls it made in order, and its outcome. */
  datatype Fetch = Fetch(session: Session, actions: seq<Action>, outcome: Outcome)

  /** The session and the driver calls made so far. */
  datatype Driven = Driven(session: Session, actions: seq<Action>)

  const TimeLimitId := "timeruleTimeYes"
  const RemainingTimeId := "var_remainingtime"
  const TimeId := "var_time"

  /** The ids read before the windows, in the order they are looked up. */
  const LeadingIds := [TimeLimitId, RemainingTimeId, TimeId]

  const WindowCount := 3

  /** `f"{i}"` for a one-digit `i`. */
  function Digit(i: nat): string
    requires i <= 9
  {
    [(('0' as int) + i) as char]
  }

  function LineId(i: nat): string requires i <= 9 { "time_line" + Digit(i) }
  function FromId(i: nat): string requires i <= 9 { "var_trule_from" + Digit(i) }
  function ToId(i: nat): string requires i <= 9 { "var_trule_to" + Digit(i) }

  /** All three elements of window `i` are on the page. */
  predicate WindowPresent(page: Dom, i: nat)
    requires i <= 9
  {
    LineId(i) in page && FromId(i) in page && ToId(i) in page
  }

  /** Window `i` as the list `[displayed, from, to]`. */
  function WindowAt(page: Dom, i: nat): Field
    requires i <= 9 && WindowPresent(page, i)
  {
    FromTo(page[LineId(i)].displayed, page[FromId(i)].text, page[ToId(i)].text)
  }

  /**
   The `for i in range(1, 4)` loop from window `i` on: the windows in
   order, or None as soon as one element is missing.
   */
  function ReadWindows(page: Dom, i: nat): (r: Option<seq<Field>>)
    requires 1 <= i <= WindowCount + 1
    ensures r.Some? <==> forall j :: i <= j <= WindowCount ==> WindowPresent(page, j)
    ensures r.Some? ==>
      && |r.value| == WindowCount + 1 - i
      && forall k :: 0 <= k < |r.value| ==> r.value[k] == WindowAt(page, i + k)
    decreases WindowCount + 1 - i
  {
    if i > WindowCount then Some([])
    else if !WindowPresent(page, i) then None
    else match ReadWindows(page, i + 1)
      case None => None
      case Some(rest) => Some([WindowAt(page, i)] + rest)
  }

  /** The three leading elements are all on the page. */
  predicate LeadingPresent(page: Dom) {
    TimeLimitId in page && RemainingTimeId in page && TimeId in page
  }

  /** `LeadingIds[k]` is the first leading element missing from the page. */
  predicate FirstMissing(page: Dom, k: nat) {
    && k < |LeadingIds|
    && LeadingIds[k] !in page
    && forall j :: 0 <= j < k ==> LeadingIds[j] in page
  }

  /** Reading the page after navigation: lines 46-62. */
  function Scrape(page: Dom): (r: Outcome)
    ensures r.Raised? <==> !LeadingPresent(page)
    ensures r.Raised? ==> exists k: nat :: FirstMissing(page, k) && r.fault == NoSuchElement(LeadingIds[k])
    ensures r.Returned? ==>
      (r.values == map[] <==> exists i :: 1 <= i <= WindowCount && !WindowPresent(page, i))
    ensures r.Returned? && r.values != map[] ==>
      && r.values.Keys == AllKeys
      && Populated(r.values)
      && r.values[TimelimitKey] == Flag(page[TimeLimitId].displayed)
      && r.values[RemainingTimeKey] == Str(page[RemainingTimeId].text)
      && r.values[TimestampKey] == Str(page[TimeId].text)
      && forall k :: 0 <= k < WindowCount ==> WindowPresent(page, k + 1) && Windows(r.values)[k] == WindowAt(page, k + 1)
  {
    if TimeLimitId !in page then
      assert FirstMissing(page, 0);
      Raised(NoSuchElement(TimeLimitId))
    else if RemainingTimeId !in page then
      assert FirstMissing(page, 1);
      Raised(NoSuchElement(RemainingTimeId))
    else if TimeId !in page then
      assert FirstMissing(page, 2);
      Raised(NoSuchElement(TimeId))
    else match ReadWindows(page, 1)
      case None => Returned(map[])
      case Some(ws) =>
        var values := map[
          TimelimitKey := Flag(page[TimeLimitId].displayed),
          TimestampKey := Str(page[TimeId].text),
          RemainingTimeKey := Str(page[RemainingTimeId].text),
          FromTo1Key := ws[0],
          FromTo2Key := ws[1],
          FromTo3Key := ws[2]
        ];
        assert TimelimitKey in values;
        Returned(values)
  }

  /**
   `_make_sure_running`: a live session is left alone; a dead one is
   replaced by a new Firefox that loads `url` (`_create_browser`), or None
   when Firefox cannot be started. Either way the result answers again.
   */
  function MakeSureRunning(session: Session, url: string, canLaunch: bool): (r: Option<Driven>)
    ensures r.None? <==> !session.alive && !canLaunch
    ensures r.Some? ==> r.value.session.alive
    ensures r.Some? ==> multiset(r.value.actions)[Launch] == (if session.alive then 0 else 1)
    ensures session.alive ==> r == Some(Driven(session, []))
    ensures r.Some? && !session.alive ==>
      && r.value.session.currentUrl == url
      && |r.value.actions| > 0 && r.value.actions[0] == Launch
      && r.value.actions[|r.value.actions| - 1] == Load(url)
  {
    if session.alive then Some(Driven(session, []))
    else if canLaunch then
      var calls := [Launch, Load(url)];
      assert multiset(calls)[Launch] == 1;
      Some(Driven(Session(true, url), calls))
    else None
  }

  /**
   Lines 42-44: reload first when the page is already showing, then load
   it. The calls made before are kept, no browser is launched, and the
   session ends on the URL.
   */
  function Navigate(driven: Driven, url: string): (r: Driven)
    requires driven.session.alive
    ensures r.session == Session(true, url)
    ensures |driven.actions| < |r.actions| && r.actions[..|driven.actions|] == driven.actions
    ensures r.actions[|r.actions| - 1] == Load(url)
    ensures Launch !in r.actions[|driven.actions|..]
    ensures Refresh in r.actions[|driven.actions|..] <==> driven.session.currentUrl == url
  {
    var reload := if driven.session.currentUrl == url then [Refresh] else [];
    var added := reload + [Load(url)];
    assert (driven.actions + added)[|driven.actions|..] == added;
    Driven(Session(true, url), driven.actions + added)
  }

  /**
   Lines 41-44, the driver calls before the page is read. A dead session
   that cannot be relaunched gives None; otherwise the session ends alive
   on the URL.
   */
  function Prepare(session: Session, url: string, canLaunch: bool): (r: Option<Driven>)
    ensures r.None? <==> !session.alive && !canLaunch
    ensures r.Some? ==> r.value.session == Session(true, url)
  {
    match MakeSureRunning(session, url, canLaunch)
    case None => None
    case Some(running) => Some(Navigate(running, url))
  }

  /**
   The driver calls of a poll that has a browser, case by case: a dead
   session is relaunched, loads the URL, and then, since the URL is now
   shown, is refreshed before the URL is loaded again; a live session
   showing the URL is refreshed and reloaded; any other live session just
   loads the URL.
   */
  lemma {:induction false} PrepareActions(session: Session, url: string, canLaunch: bool)
    requires session.alive || canLaunch
    ensures var actions := Prepare(session, url, canLaunch).value.actions;
      && (!session.alive ==> actions == [Launch, Load(url), Refresh, Load(url)])
      && (session.alive && session.currentUrl == url ==> actions == [Refresh, Load(url)])
      && (session.alive && session.currentUrl != url ==> actions == [Load(url)])
  {
    var running := MakeSureRunning(session, url, canLaunch).value;
    if !session.alive {
      assert running == Driven(Session(true, url), [Launch, Load(url)]);
    } else {
      assert running == Driven(session, []);
    }
  }

  /**
   At most one browser is started, and only for a dead session. A refresh
   is issued iff the URL is already shown when the page is about to be
   loaded, which is always so after a relaunch. Loading the URL is the
   last call.
   */
  lemma {:induction false} RefreshIffShown(session: Session, url: string, canLaunch: bool)
    requires session.alive || canLaunch
    ensures var actions := Prepare(session, url, canLaunch).value.actions;
      && |actions| > 0 && actions[|actions| - 1] == Load(url)
      && (Refresh in actions <==> !session.alive || session.currentUrl == url)
      && multiset(actions)[Launch] == (if session.alive then 0 else 1)
  {
    PrepareActions(session, url, canLaunch);
    if !session.alive {
      CallsFacts([Launch, Load(url), Refresh, Load(url)], url, true, 1);
    } else if session.currentUrl == url {
      CallsFacts([Refresh, Load(url)], url, true, 0);
    } else {
      CallsFacts([Load(url)], url, false, 0);
    }
  }

  /** The facts `RefreshIffShown` reads off one of the three call lists. */
  lemma {:induction false} CallsFacts(actions: seq<Action>, url: string, refreshed: bool, launches: nat)
    requires
      || (actions == [Launch, Load(url), Refresh, Load(url)] && refreshed && launches == 1)
      || (actions == [Refresh, Load(url)] && refreshed && launches == 0)
      || (actions == [Load(url)] && !refreshed && launches == 0)
    ensures |actions| > 0 && actions[|actions| - 1] == Load(url)
    ensures Refresh in actions <==> refreshed
    ensures multiset(actions)[Launch] == launches
  {
  }

  /**
   One call of `get_values`. `page` is the DOM the browser holds after the
   settle delay.
   */
  function GetValues(session: Session, url: string, canLaunch: bool, page: Dom): (r: Fetch)
    ensures r.outcome == Raised(SessionUnavailable) <==> !session.alive && !canLaunch
    ensures !session.alive && !canLaunch ==> r.session == session && r.actions == []
    ensures session.alive || canLaunch ==>
      && r.session == Session(true, url)
      && |r.actions| > 0 && r.actions[|r.actions| - 1] == Load(url)
      && r.outcome == Scrape(page)
  {
    if session.alive || canLaunch then
      RefreshIffShown(session, url, canLaunch);
      var prepared := Prepare(session, url, canLaunch).value;
      Fetch(prepared.session, prepared.actions, Scrape(page))
    else
      Fetch(session, [], Raised(SessionUnavailable))
  }

  /**
   After a crash the first poll starts exactly one browser, and the poll
   after it only reloads and loads the page: the session is not replaced again.
   */
  lemma RecoveryLaunchesOnce(session: Session, url: string, canLaunch: bool, first: Dom, second: Dom)
    requires !session.alive
    ensures var f1 := GetValues(session, url, true, first);
      var f2 := GetValues(f1.session, url, canLaunch, second);
      && multiset(f1.actions + f2.actions)[Launch] == 1
      && f2.actions == [Refresh, Load(url)]
      && f2.outcome == Scrape(second)
  {
    var f1 := GetValues(session, url, true, first);
    PrepareActions(session, url, true);
    PrepareActions(f1.session, url, canLaunch);
    assert f1.actions + [Refresh, Load(url)] == [Launch, Load(url), Refresh, Load(url), Refresh, Load(url)];
  }
}
