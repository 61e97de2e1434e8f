/**
 * The availability checker of `scraper.py`: the class `BookMyShowScraper`,
 * its rate limiter and the classification done by
 * `check_ticket_availability`.
 *
 * The HTTP fetch and the HTML parser are outside the model. What they hand
 * to the classification is an input: a `FetchOutcome`, which is either the
 * parsed page (its visible text, the text of each title selector's match
 * in selector order, the texts of all buttons and links) or the kind of
 * failure that was raised. Clock readings are integer ticks.
 */
module Scraper {
  import opened Wrappers
  import opened Text

  /** Title kept when no title selector matches. */
  const DefaultTitle: string := "Unknown Movie"

  /** Status every result starts with. */
  const InitialStatus: string := "Unknown"

  /** Phrases that show booking is open, in the order they are tried. */
  const BookingIndicators: seq<string> :=
    ["Book tickets", "Book now", "Buy tickets", "Purchase tickets", "Select seats", "Choose seats"]

  /** Phrases that show booking is closed, in the order they are tried. */
  const UnavailableIndicators: seq<string> :=
    ["sold out", "not available", "coming soon", "advance booking not started", "no shows available"]

  /** Status when neither list of phrases matches. */
  const NoIndicatorsStatus: string := "No clear booking indicators found"

  const RequestFailedStatus: string := "Request failed"
  const RequestErrorPrefix: string := "Request error: "
  const ScrapingFailedStatus: string := "Scraping failed"
  const ScrapingErrorPrefix: string := "Scraping error: "

  /** Minimum number of ticks between two outbound requests. */
  const MinRequestInterval: nat := 2

  /** The result record of one check. `title` is `None` only for results the monitor makes up. */
  datatype CheckResult = CheckResult(
    url: string,
    title: Option<string>,
    available: bool,
    status: string,
    error: Option<string>)

  /**
   * A fetched and parsed page: the visible text, for each title selector in
   * order the stripped text of its first match (or `None`), and the stripped
   * text of every button and link in document order.
   */
  datatype Page = Page(text: string, titleMatches: seq<Option<string>>, linkTexts: seq<string>)

  /** What fetching and parsing a URL produced. */
  datatype FetchOutcome =
    | Fetched(page: Page)
    | RequestFailed(reason: string)   // the HTTP library raised (transport error, timeout, non-2xx)
    | ScrapingFailed(reason: string)  // anything else raised before the page was examined

  /** The record a check starts from. */
  function InitialResult(url: string): CheckResult {
    CheckResult(url, Some(DefaultTitle), false, InitialStatus, None)
  }

  /** The position of the first title selector that matched, if any. */
  function FirstTitle(matches: seq<Option<string>>): (r: Option<nat>)
    ensures r.Some? ==> r.value < |matches| && matches[r.value].Some?
    ensures r.Some? ==> forall j :: 0 <= j < r.value ==> matches[j].None?
    ensures r.None? <==> forall j :: 0 <= j < |matches| ==> matches[j].None?
    decreases |matches|
  {
    if matches == [] then None
    else if matches[0].Some? then Some(0)
    else match FirstTitle(matches[1..])
      case None => None
      case Some(i) => Some(i + 1)
  }

  /** The title: the text of the first selector that matched, else the default. */
  function ExtractTitle(matches: seq<Option<string>>): (t: string)
    ensures (forall i :: 0 <= i < |matches| ==> matches[i].None?) ==> t == DefaultTitle
    ensures (exists i :: 0 <= i < |matches| && matches[i].Some?) ==>
      exists k :: 0 <= k < |matches| && matches[k] == Some(t) &&
        forall j :: 0 <= j < k ==> matches[j].None?
  {
    match FirstTitle(matches)
    case None => DefaultTitle
    case Some(k) => matches[k].value
  }

  /** `indicator`, lower-cased, is in the (already lower-cased) page text. */
  predicate IndicatorIn(loweredText: string, indicator: string) {
    Occurs(loweredText, Lower(indicator))
  }

  /** The position of the first of `indicators` found in the lower-cased text, if any. */
  function FirstIndicator(indicators: seq<string>, loweredText: string): (r: Option<nat>)
    ensures r.Some? ==> r.value < |indicators| && IndicatorIn(loweredText, indicators[r.value])
    ensures r.Some? ==> forall j :: 0 <= j < r.value ==> !IndicatorIn(loweredText, indicators[j])
    ensures r.None? <==> forall j :: 0 <= j < |indicators| ==> !IndicatorIn(loweredText, indicators[j])
    decreases |indicators|
  {
    if indicators == [] then None
    else if IndicatorIn(loweredText, indicators[0]) then Some(0)
    else match FirstIndicator(indicators[1..], loweredText)
      case None => None
      case Some(i) => Some(i + 1)
  }

  /** A button or link whose non-empty text contains one of `booking`, ignoring case. */
  predicate IsBookingLink(booking: seq<string>, linkText: string) {
    linkText != [] && exists i :: 0 <= i < |booking| && IndicatorIn(Lower(linkText), booking[i])
  }

  /** The position of the first booking link, if any. */
  function FirstBookingLink(booking: seq<string>, linkTexts: seq<string>): (r: Option<nat>)
    ensures r.Some? ==> r.value < |linkTexts| && IsBookingLink(booking, linkTexts[r.value])
    ensures r.Some? ==> forall j :: 0 <= j < r.value ==> !IsBookingLink(booking, linkTexts[j])
    ensures r.None? <==> forall j :: 0 <= j < |linkTexts| ==> !IsBookingLink(booking, linkTexts[j])
    decreases |linkTexts|
  {
    if linkTexts == [] then None
    else if IsBookingLink(booking, linkTexts[0]) then Some(0)
    else match FirstBookingLink(booking, linkTexts[1..])
      case None => None
      case Some(i) => Some(i + 1)
  }

  /**
   * The ordered first-match classification of a parsed page, for given
   * lists of booking and closed-booking phrases.
   */
  function ClassifyWith(url: string, page: Page, booking: seq<string>, unavailable: seq<string>): (r: CheckResult)
    ensures r.url == url && r.error.None?
    ensures r.title == Some(ExtractTitle(page.titleMatches))
  {
    var titled := InitialResult(url).(title := Some(ExtractTitle(page.titleMatches)));
    var text := Lower(page.text);
    match FirstIndicator(booking, text)
    case Some(i) =>
      titled.(available := true, status := "Tickets available - found '" + booking[i] + "'")
    case None =>
      match FirstBookingLink(booking, page.linkTexts)
      case Some(j) =>
        titled.(available := true, status := "Booking button found: " + page.linkTexts[j])
      case None =>
        match FirstIndicator(unavailable, text)
        case Some(k) => titled.(status := "Not available - " + unavailable[k])
        case None => titled.(status := NoIndicatorsStatus)
  }

  /**
   * The result of checking `url` when fetching and parsing produced
   * `outcome`, with the phrase lists `booking` and `unavailable`.
   */
  function Assess(url: string, outcome: FetchOutcome, booking: seq<string>, unavailable: seq<string>): (r: CheckResult)
    ensures r.url == url
    ensures r.error.Some? <==> !outcome.Fetched?
    ensures r.available ==> outcome.Fetched?
  {
    match outcome
    case Fetched(page) => ClassifyWith(url, page, booking, unavailable)
    case RequestFailed(reason) =>
      InitialResult(url).(error := Some(RequestErrorPrefix + reason), status := RequestFailedStatus)
    case ScrapingFailed(reason) =>
      InitialResult(url).(error := Some(ScrapingErrorPrefix + reason), status := ScrapingFailedStatus)
  }

  /** Ticks to sleep so that the next request is at least the minimum interval after `last`. */
  function SleepTime(last: int, now: int): (d: nat)
    ensures now + d >= last + MinRequestInterval
    ensures d == 0 || now + d == last + MinRequestInterval
  {
    var elapsed := now - last;
    if elapsed < MinRequestInterval then MinRequestInterval - elapsed else 0
  }

  /**
   * A booking phrase in the page text makes the page available, with the
   * first such phrase in list order named in the status, whatever else the
   * page says (positive evidence beats negative evidence).
   */
  lemma {:induction false} TextIndicatorWins(url: string, page: Page, booking: seq<string>, unavailable: seq<string>, i: nat)
    requires i < |booking| && IndicatorIn(Lower(page.text), booking[i])
    ensures ClassifyWith(url, page, booking, unavailable).available
    ensures exists k ::
      && 0 <= k <= i
      && IndicatorIn(Lower(page.text), booking[k])
      && (forall j :: 0 <= j < k ==> !IndicatorIn(Lower(page.text), booking[j]))
      && ClassifyWith(url, page, booking, unavailable).status == "Tickets available - found '" + booking[k] + "'"
  {
    var k := FirstIndicator(booking, Lower(page.text)).value;
    assert k <= i;
  }

  /**
   * With no booking phrase in the page text, the first booking link makes the
   * page available and its text is named in the status.
   */
  lemma {:induction false} LinkIndicatorWins(url: string, page: Page, booking: seq<string>, unavailable: seq<string>, j: nat)
    requires forall i :: 0 <= i < |booking| ==> !IndicatorIn(Lower(page.text), booking[i])
    requires j < |page.linkTexts| && IsBookingLink(booking, page.linkTexts[j])
    ensures ClassifyWith(url, page, booking, unavailable).available
    ensures exists k ::
      && 0 <= k <= j
      && IsBookingLink(booking, page.linkTexts[k])
      && (forall m :: 0 <= m < k ==> !IsBookingLink(booking, page.linkTexts[m]))
      && ClassifyWith(url, page, booking, unavailable).status == "Booking button found: " + page.linkTexts[k]
  {
    var k := FirstBookingLink(booking, page.linkTexts).value;
    assert k <= j;
  }

  /**
   * With no booking phrase in the text or the links, a closed-booking phrase
   * makes the result unavailable and the first such phrase is named.
   */
  lemma {:induction false} UnavailableIndicatorNamed(url: string, page: Page, booking: seq<string>, unavailable: seq<string>, i: nat)
    requires forall j :: 0 <= j < |booking| ==> !IndicatorIn(Lower(page.text), booking[j])
    requires forall j :: 0 <= j < |page.linkTexts| ==> !IsBookingLink(booking, page.linkTexts[j])
    requires i < |unavailable| && IndicatorIn(Lower(page.text), unavailable[i])
    ensures !ClassifyWith(url, page, booking, unavailable).available
    ensures exists k ::
      && 0 <= k <= i
      && IndicatorIn(Lower(page.text), unavailable[k])
      && (forall j :: 0 <= j < k ==> !IndicatorIn(Lower(page.text), unavailable[j]))
      && ClassifyWith(url, page, booking, unavailable).status == "Not available - " + unavailable[k]
  {
    var k := FirstIndicator(unavailable, Lower(page.text)).value;
    assert k <= i;
  }

  /** With no phrase of either list anywhere, the result is the fixed "unknown" classification. */
  lemma {:induction false} NoIndicatorsFound(url: string, page: Page, booking: seq<string>, unavailable: seq<string>)
    requires forall j :: 0 <= j < |booking| ==> !IndicatorIn(Lower(page.text), booking[j])
    requires forall j :: 0 <= j < |page.linkTexts| ==> !IsBookingLink(booking, page.linkTexts[j])
    requires forall j :: 0 <= j < |unavailable| ==> !IndicatorIn(Lower(page.text), unavailable[j])
    ensures ClassifyWith(url, page, booking, unavailable) ==
      CheckResult(url, Some(ExtractTitle(page.titleMatches)), false, NoIndicatorsStatus, None)
  {
  }

  /**
   * A checked page is available exactly when its text, or the text of one of
   * its buttons or links, shows one of the booking phrases; the closed-booking
   * phrases never make a page available.
   */
  lemma {:induction false} AvailableIff(url: string, outcome: FetchOutcome, booking: seq<string>, unavailable: seq<string>)
    ensures Assess(url, outcome, booking, unavailable).available <==>
      outcome.Fetched? &&
      ((exists i :: 0 <= i < |booking| && IndicatorIn(Lower(outcome.page.text), booking[i])) ||
       (exists j :: 0 <= j < |outcome.page.linkTexts| && IsBookingLink(booking, outcome.page.linkTexts[j])))
  {
    if outcome.Fetched? {
      var page := outcome.page;
      var text := Lower(page.text);
      var inText, inLinks := FirstIndicator(booking, text), FirstBookingLink(booking, page.linkTexts);
      if inText.Some? {
        assert IndicatorIn(text, booking[inText.value]);
      } else if inLinks.Some? {
        assert IsBookingLink(booking, page.linkTexts[inLinks.value]);
      }
    }
  }

  /**
   * The "unknown" status cannot be confused with any other status a check
   * produces: it differs from every matched-phrase status and from both
   * failure statuses.
   */
  lemma {:induction false} UnknownStatusIsDistinct(x: string)
    ensures NoIndicatorsStatus != "Not available - " + x
    ensures NoIndicatorsStatus != "Tickets available - found '" + x + "'"
    ensures NoIndicatorsStatus != "Booking button found: " + x
    ensures NoIndicatorsStatus != RequestFailedStatus && NoIndicatorsStatus != ScrapingFailedStatus
  {
    assert ("Not available - " + x)[2] == 't' != NoIndicatorsStatus[2];
    assert ("Tickets available - found '" + x + "'")[0] == 'T' != NoIndicatorsStatus[0];
    assert ("Booking button found: " + x)[0] == 'B' != NoIndicatorsStatus[0];
  }

  /**
   * A failed fetch or parse is never available, keeps the default title, and
   * carries the failure's message behind a prefix naming its kind.
   */
  lemma {:induction false} FailureResult(url: string, outcome: FetchOutcome)
    requires !outcome.Fetched?
    ensures var r := Assess(url, outcome, BookingIndicators, UnavailableIndicators);
      && !r.available
      && r.title == Some(DefaultTitle)
      && r.error.Some?
      && (outcome.RequestFailed? ==>
            r.status == RequestFailedStatus && r.error.value == RequestErrorPrefix + outcome.reason)
      && (outcome.ScrapingFailed? ==>
            r.status == ScrapingFailedStatus && r.error.value == ScrapingErrorPrefix + outcome.reason)
  {
  }

  /**
   * A booking phrase written in any mix of upper and lower case in the page
   * is found: matching is done on lower-cased text.
   */
  lemma {:induction false} MatchIgnoresCase(pageText: string, written: string, indicator: string)
    requires Occurs(pageText, written) && Lower(written) == Lower(indicator)
    ensures IndicatorIn(Lower(pageText), indicator)
  {
    OccursLowered(pageText, written);
  }

  /**
   * The checker object: it owns the time of its last outbound request, which
   * throttles every URL it checks.
   */
  class BookMyShowScraper {
    /** The phrase lists `check_ticket_availability` tries, fixed for the checker's lifetime. */
    const bookingIndicators: seq<string>
    const unavailableIndicators: seq<string>
    var lastRequestTime: int

    constructor ()
      ensures bookingIndicators == BookingIndicators && unavailableIndicators == UnavailableIndicators
      ensures lastRequestTime == 0
    {
      bookingIndicators, unavailableIndicators := BookingIndicators, UnavailableIndicators;
      lastRequestTime := 0;
    }

    /**
     * `_rate_limit`: `now` is the clock when it is called; it sleeps `slept`
     * ticks and then reads the clock again, which by then has advanced by
     * the sleep plus `overshoot` (time the sleep and the reading took beyond
     * what was asked).
     */
    method RateLimit(now: int, overshoot: nat) returns (slept: nat)
      modifies this
      ensures slept == SleepTime(old(lastRequestTime), now)
      ensures lastRequestTime == now + slept + overshoot
      ensures lastRequestTime >= old(lastRequestTime) + MinRequestInterval
    {
      var elapsed := now - lastRequestTime;
      slept := 0;
      if elapsed < MinRequestInterval {
        slept := MinRequestInterval - elapsed;
      }
      lastRequestTime := now + slept + overshoot;
    }

    /** `check_ticket_availability`: throttle, then classify what the fetch produced. */
    method CheckTicketAvailability(url: string, now: int, overshoot: nat, outcome: FetchOutcome)
      returns (r: CheckResult)
      modifies this
      ensures r == Assess(url, outcome, bookingIndicators, unavailableIndicators)
      ensures lastRequestTime == now + SleepTime(old(lastRequestTime), now) + overshoot
      ensures lastRequestTime >= old(lastRequestTime) + MinRequestInterval
    {
      var _ := RateLimit(now, overshoot);
      r := Assess(url, outcome, bookingIndicators, unavailableIndicators);
    }
  }
}
