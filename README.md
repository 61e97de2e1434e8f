# TicketScout availability monitor, modelled in Dafny

TicketScout watches BookMyShow movie pages and announces in a Telegram chat
when tickets can be booked. This project models its two working parts.

- **The checker** (`scraper.py`, class `BookMyShowScraper`). It throttles
  requests to one every two seconds. It reads a movie page and classifies it
  by an ordered first-match search:
  - the first title selector that matches gives the title;
  - then the booking phrases are searched in the lower-cased page text;
  - then they are searched in the button and link texts;
  - then the "closed" phrases are searched in the page text;
  - otherwise the result gets a fixed "no indicators" status.

  A failed request and any other failure give fixed error results.
- **The monitor** (`monitor.py`, class `BookingMonitor`). It keeps a
  duplicate-free list of tracked URLs and the last result stored for each
  URL. It also counts passes and delivered notifications. One pass checks
  every URL in order. With an asyncio event loop running in the calling
  thread, a notification is scheduled when a result is available and the
  stored one is not; a missing entry counts as not available. The stored
  result is then overwritten. The only caller of the pass is the monitor
  thread that `main.py` starts (main.py:63). No event loop is running there,
  so creating the task raises and the pass behaves differently, as the row
  under "## Findings" describes. (As shipped, `main.py` fails at line 28 on
  an undefined name before it reaches that point; `main.py` is not part of
  this model.)

Files:

- `wrappers.dfy` holds `Option`.
- `text.dfy` (module `Text`) holds ASCII lower-casing and substring
  containment, which is Python's `in` on strings.
- `scraper.dfy` (module `Scraper`) holds the result record and the
  classification functions with their precedence lemmas. It also holds the
  class `BookMyShowScraper`, whose rate limiter is a method on its
  `lastRequestTime` field.
- `monitor.dfy` (module `Monitor`) holds the class `BookingMonitor` with
  methods that update its fields. It also holds `RunCycle`, the function
  that specifies one pass, and the lemmas about passes.

The network, the HTML parser, the clock and the chat transport are inputs:

- A `FetchOutcome` is the parsed page or the kind of failure.
- A `Probe` is the clock reading and the fetch outcome for one URL's check.
- `transportOk` says whether the chat server accepted a message.
- `sentAt` is the formatted time.
- `loopRunning` says whether an asyncio event loop runs in the calling
  thread.

Scheduling a notification task appends the result to `scheduled`. A
delivered message is appended to `delivered`.

A URL's first sight is not a silent baseline. The code compares each result
against the stored entry, and a missing entry reads as "not available". So a
URL that is available when first checked, or after it was removed and added
again, is on an edge. With an event loop running it triggers a notification;
see `Monitor.ReaddedUrlNotifies`. In the monitor thread it gets a "Check
failed" result instead; see `Monitor.MonitorThreadLosesNotifications`.

## Model

| member | source | states |
|---|---|---|
| Text.Lower | scraper.py:122-126 | lower-casing keeps the length of the page text and of every phrase |
| Text.LowerAt | scraper.py:122-126 | every character of the lower-cased text is the original character lower-cased on its own (ASCII letters to lower case, all else unchanged) |
| Scraper.InitialResult | scraper.py:73-79 | a check starts unavailable, with status "Unknown", no error, the title "Unknown Movie" and the checked URL |
| Scraper.IndicatorIn | scraper.py:126 | a phrase is found when its lower-cased form is a substring of the lower-cased page text |
| Scraper.IsBookingLink | scraper.py:133-136 | a button or link counts when its text is non-empty and contains some booking phrase, both lower-cased |
| Scraper.FirstTitle | scraper.py:106-110 | the selector found is the first one that matched: it matched and no earlier one did; none found iff no selector matched |
| Scraper.ExtractTitle | scraper.py:98-110 | the title is the text of the first selector that matched, with every earlier selector unmatched; with no match it is "Unknown Movie" |
| Scraper.FirstIndicator | scraper.py:125-130 | the phrase found is the first phrase of the list whose lower-cased form occurs in the page text; none found iff no phrase occurs |
| Scraper.FirstBookingLink | scraper.py:133-140 | the link found is the first non-empty button or link text containing a booking phrase case-insensitively; none found iff there is none |
| Scraper.ClassifyWith | scraper.py:97-159 | a parsed page's result keeps the URL, has no error and carries the extracted title |
| Scraper.Assess | scraper.py:73-172 | the result keeps the URL; it has an error exactly when fetching or parsing failed; only a parsed page can be available |
| Scraper.SleepTime | scraper.py:49-55 | the sleep brings the next request to at least the minimum interval after the last one, and is zero or exactly the missing time |
| Scraper.TextIndicatorWins | scraper.py:113-130 | if the i-th booking phrase is the first one in the page text, the result is available with status "Tickets available - found '<phrase>'", whatever the links and closed phrases say |
| Scraper.LinkIndicatorWins | scraper.py:133-140 | with no booking phrase in the text, if the j-th link is the first booking link, the result is available with status "Booking button found: <link text>" |
| Scraper.UnavailableIndicatorNamed | scraper.py:143-156 | with no booking phrase in text or links, the first closed phrase in the text gives an unavailable result with status "Not available - <phrase>" |
| Scraper.NoIndicatorsFound | scraper.py:158-159 | with no phrase of either list found, the result is unavailable with status "No clear booking indicators found" |
| Scraper.AvailableIff | scraper.py:113-140 | for any booking and closed-booking phrase lists (the source's among them), a check is available if and only if the page was fetched and a booking phrase occurs in its text or in one of its button or link texts |
| Scraper.UnknownStatusIsDistinct | scraper.py:154-171 | the "no indicators" status differs from every phrase status and from both failure statuses |
| Scraper.FailureResult | scraper.py:162-172 | a failed request gives status "Request failed" and error "Request error: <reason>"; any other failure gives "Scraping failed" and "Scraping error: <reason>"; neither is available and both keep "Unknown Movie" |
| Scraper.MatchIgnoresCase | scraper.py:122-126 | a booking phrase written in the page in any letter case is found |
| Scraper.BookMyShowScraper.constructor | scraper.py:40-42 | the last request time starts at 0 and the checker holds the source's two phrase lists |
| Scraper.BookMyShowScraper.RateLimit | scraper.py:44-57 | it sleeps exactly the missing part of the minimum interval; the new request time is the clock after the sleep and is at least the minimum interval after the previous one |
| Scraper.BookMyShowScraper.CheckTicketAvailability | scraper.py:59-174 | it throttles and then returns the classification of the fetch outcome |
| Monitor.WithUrl | monitor.py:62-69 | adding appends the URL exactly when it was not tracked and leaves the list unchanged when it was; membership gains just that URL; no duplicates stay no duplicates |
| Monitor.WithoutUrl | monitor.py:85-86 | removing drops one entry when the URL is tracked and nothing otherwise; other URLs stay; on a duplicate-free list the URL is gone |
| Monitor.WithoutUrlCutsFirst | monitor.py:86 | removal cuts the list at the URL's first occurrence and keeps the order of the rest |
| Monitor.RemoveUndoesAdd | monitor.py:62-88 | adding an untracked URL and removing it again gives back the same list |
| Monitor.AddIsIdempotent | monitor.py:62-69 | adding the same URL twice is the same as adding it once |
| Monitor.PreviouslyAvailable | monitor.py:132-134 | the stored state says available; a URL with no stored state reads as not available |
| Monitor.IsEdge | monitor.py:132-137 | the notification rule: the new result is available and the stored one is not |
| Monitor.FailedCheck | monitor.py:145-150 | the result recorded when the per-URL block raises: the URL, not available, status "Check failed", the exception's message as error, and no title |
| Monitor.Step | monitor.py:129-150 | with an event loop running, one URL's turn appends its result and stores it |
| Monitor.CheckerResults | monitor.py:125-129 | the checker returns one result per URL |
| Monitor.CheckerResultsAt | monitor.py:125-129 | the checker's result for the i-th URL is that URL's classification and carries that URL |
| Monitor.RunCycle | monitor.py:116-153 | with an event loop running, a pass returns exactly the checker's results, one per URL in list order; it never schedules more notifications than there are URLs |
| Monitor.UncheckedStatesKept | monitor.py:125-141 | a pass leaves the stored state of every URL it does not check as it was |
| Monitor.EdgesMembers | monitor.py:132-138 | the reference edges are results of this pass that are on an edge, every edge is among them, and no URL appears twice |
| Monitor.ScheduledAreEdges | monitor.py:132-138 | with an event loop running and no duplicate URLs, the scheduled notifications are exactly the reference edges, in list order |
| Monitor.EdgeOfUrl | monitor.py:132-138 | a reference edge that carries a URL is that URL's new result, and the URL is on an edge |
| Monitor.EdgeForUrl | monitor.py:132-138 | the reference edges carry a URL if and only if it is on an edge, and then once, with its new result |
| Monitor.NotifiesExactlyOnEdge | monitor.py:132-138 | with an event loop running, a notification is scheduled for a URL if and only if it is available now and was not before (missing means not); then exactly one, carrying the new result |
| Monitor.StoresLatest | monitor.py:141 | after a pass with an event loop running, every URL's stored state is its result from this pass, notified or not |
| Monitor.ReaddedUrlNotifies | monitor.py:87-88 | with an event loop running, a URL whose stored state was dropped by removal, and found available, gets a notification on the next pass (without one, see the row under "## Findings") |
| Monitor.NoLoopResultsContents | monitor.py:125-150 | the reference results of a pass without an event loop number one per URL plus one per edge, and hold every URL's own result and a "Check failed" result for every edge URL |
| Monitor.NoLoopResultsOnly | monitor.py:125-150 | the reference results of a pass without an event loop hold nothing else: each entry is some URL's own result or the "Check failed" result of a URL on an edge |
| Monitor.MonitorThreadLosesNotifications | monitor.py:125-150 | with no event loop, nothing is scheduled; the results are, in list order, each URL's own result, followed directly by a "Check failed" result when the URL is on an edge; an edge URL's stored state is unchanged so the edge recurs; other URLs are stored as usual |
| Monitor.AvailabilityMessage | monitor.py:162-173 | the message contains the title ("Unknown Movie" when absent), the status, the URL and the send time |
| Monitor.DistinctCount | monitor.py:191 | a duplicate-free list of n URLs names n distinct URLs |
| Monitor.ChatConfigured | monitor.py:105 | a chat id is configured when it is present and non-empty, which is Python's truth test on `chat_id` |
| Monitor.BookingMonitor.constructor | monitor.py:22-50 | a new monitor is stopped, tracks the two default URLs, has no stored states, zero counters and a fresh checker |
| Monitor.BookingMonitor.AddUrl | monitor.py:52-72 | returns true iff the URL was not tracked, and then appends it; otherwise nothing changes; states and counters are untouched |
| Monitor.BookingMonitor.RemoveUrl | monitor.py:74-96 | returns true iff the URL was tracked; it is then removed from the list and its stored state dropped; otherwise nothing changes |
| Monitor.BookingMonitor.SendNotification | monitor.py:98-114 | a message is delivered and counted iff a chat id is set and the transport accepts it; otherwise nothing changes |
| Monitor.BookingMonitor.SendAvailabilityNotification | monitor.py:155-176 | sends the availability message for the result, under the same conditions |
| Monitor.BookingMonitor.RecordResult | monitor.py:129-150 | one URL's turn updates the results, the stored states and the scheduled notifications as one step of the pass |
| Monitor.BookingMonitor.CheckNext | monitor.py:126-150 | one URL's turn advances the pass by exactly one step: the results, stored states and scheduled notifications become those of the pass over one more URL; the checker's last request time advances by at least the minimum interval |
| Monitor.BookingMonitor.CheckAllUrls | monitor.py:116-153 | the returned results, new stored states and newly scheduled notifications are those of `RunCycle`; the pass count grows by one; the checker's last request time advances by at least the minimum interval per URL |
| Monitor.BookingMonitor.Stats | monitor.py:178-196 | reports the running flag, the number of distinct tracked URLs, the pass count, the delivered-notification count and the interval |
| Monitor.BookingMonitor.StopMonitoring | monitor.py:241-246 | clears the running flag and changes nothing else |

## Left out

- HTTP fetching is not modelled: the session, headers, timeout and status check. A `FetchOutcome` stands in for it.
- HTML parsing is not modelled: BeautifulSoup, `select_one`, `find_all` and `get_text`. The page text, the title selectors' matches and the button and link texts are inputs.
- `get_movie_info` is not modelled. It is a fetch plus library selectors, with no logic of its own.
- Telegram delivery is an input flag. `asyncio.create_task` is an append to `scheduled`. Running the scheduled tasks later is not modelled.
- `start_monitoring` is not modelled: its endless loop, `time.sleep`, the 60-second retry and `KeyboardInterrupt`. The threading in `main.py` is not modelled either. One pass is `CheckAllUrls`, with `loopRunning` false for the monitor thread.
- Uptime in `get_monitoring_stats` and `time.strftime` are left out: they read the wall clock. The send time is a string parameter.
- Logging is left out. `bot_handlers.py` and `main.py` are not part of this model.
- Scraper.BookMyShowScraper.RateLimit: clock readings are integer ticks, not float seconds. The clock after the sleep is `now + slept + overshoot`, so the clock is assumed never to run backwards during a sleep.
- Text.Lower: only ASCII letters are lower-cased. Python's `str.lower` also folds non-ASCII letters.
- Scraper.Assess: an exception other than a request error is modelled as raised before the title is read. One raised after the title was set would keep that title in the "Scraping failed" result.
- Scraper.BookMyShowScraper.constructor: the phrase lists are literals inside `check_ticket_availability` in the source. Here the checker holds them as constants with the same values.
- Monitor.BookingMonitor.AddUrl and Monitor.BookingMonitor.RemoveUrl: their `except` branches are not modelled. List membership, append and removal on strings do not raise.
- Monitor.BookingMonitor.CheckAllUrls: the only raise modelled in the per-URL block is task creation without an event loop. The checker catches every exception itself. Logging failures are not modelled.
- A concurrent caller of `add_url` or `remove_url` during a pass is not modelled. The list is read once at the start of the pass.

## Findings

| source | as written | input that shows it | evidently intended | confidence | as-written member | corrected member |
|---|---|---|---|---|---|---|
| monitor.py:138 | `asyncio.create_task` is called from the monitor thread. `start_monitoring` (monitor.py:210-211) creates and sets an event loop but never runs it, so the call raises "no running event loop". The per-URL handler then appends a "Check failed" result after the real one and skips the state update. No notification is ever scheduled, and the same edge is found on every later pass. | Any tracked URL whose check turns from not available (or no stored state) to available during `start_monitoring` | Schedule one notification for the edge and store the new result (`Monitor.NotifiesExactlyOnEdge`, `Monitor.StoresLatest`) | high (from asyncio's documented behaviour; not executed) | Monitor.MonitorThreadLosesNotifications | Monitor.NotifiesExactlyOnEdge |
