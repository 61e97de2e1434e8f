/**
 * The monitor of `monitor.py`: the class `BookingMonitor`, which keeps the
 * list of tracked URLs, the last result seen for each, and its counters,
 * and which on every pass checks each URL and schedules a notification when
 * a URL turns from not bookable to bookable.
 *
 * The checker is the `Scraper` module's; what the network and the clock do
 * during one URL's check is an input (`Probe`). Scheduling a notification
 * task is appending the result to `scheduled`; delivering a message is
 * appending it to `delivered`, with the transport's success an input.
 */
module Monitor {
  import opened Wrappers
  import opened Text
  import opened Scraper

  /** Seconds between two passes. */
  const CheckInterval: nat := 300

  /** The URLs tracked from the start. */
  const DefaultUrls: seq<string> := [
    "https://in.bookmyshow.com/movies/mumbai/demon-slayer-kimetsu-no-yaiba-the-movie-infinity-castle-japanese/ET00436673",
    "https://in.bookmyshow.com/movies/mumbai/param-sundari-hindi/ET00426409"
  ]

  /** Status of the result recorded for a URL whose check raised. */
  const CheckFailedStatus: string := "Check failed"

  /** The message of the error raised when a task is created with no event loop running. */
  const NoRunningLoop: string := "no running event loop"

  /** What the world does during the check of one URL: the clock on entry to the rate limiter, its overshoot, and the fetch. */
  datatype Probe = Probe(now: int, overshoot: nat, outcome: FetchOutcome)

  /** What a pass produces: its results in order, the stored states after it, and the notifications it scheduled. */
  datatype CycleOutcome = CycleOutcome(
    results: seq<CheckResult>,
    states: map<string, CheckResult>,
    scheduled: seq<CheckResult>)

  /** The figures `get_monitoring_stats` reports (uptime is left out). */
  datatype MonitoringStats = MonitoringStats(
    isRunning: bool,
    urlsMonitored: nat,
    checksPerformed: nat,
    notificationsSent: nat,
    checkInterval: nat)

  predicate NoDuplicates(s: seq<string>) {
    forall i, j :: 0 <= i < j < |s| ==> s[i] != s[j]
  }

  /** The tracked list after `add_url(u)`. */
  function WithUrl(urls: seq<string>, u: string): (r: seq<string>)
    ensures u in r
    ensures forall x :: x in r <==> x in urls || x == u
    ensures NoDuplicates(urls) ==> NoDuplicates(r)
    ensures u !in urls ==> |r| == |urls| + 1 && r[..|urls|] == urls
    ensures u in urls ==> r == urls
  {
    if u in urls then urls else urls + [u]
  }

  /** The tracked list after `remove_url(u)`: its first occurrence of `u` taken out (Python's `list.remove`). */
  function WithoutUrl(urls: seq<string>, u: string): (r: seq<string>)
    ensures u !in urls ==> r == urls
    ensures u in urls ==> |r| == |urls| - 1
    ensures forall x :: x in r ==> x in urls
    ensures forall x :: x != u && x in urls ==> x in r
    ensures NoDuplicates(urls) ==> NoDuplicates(r) && u !in r
    decreases |urls|
  {
    if urls == [] then []
    else if urls[0] == u then
      assert NoDuplicates(urls) ==> u !in urls[1..];
      urls[1..]
    else
      var rest := WithoutUrl(urls[1..], u);
      assert NoDuplicates(urls) ==> urls[0] !in rest && NoDuplicates(urls[1..]);
      assert forall x :: x in urls && x != urls[0] ==> x in urls[1..];
      [urls[0]] + rest
  }

  /**
   * Removal keeps the order of the other URLs: it cuts the list at the
   * first occurrence `k` of the URL.
   */
  lemma {:induction false} WithoutUrlCutsFirst(urls: seq<string>, u: string, k: nat)
    requires k < |urls| && urls[k] == u && u !in urls[..k]
    ensures WithoutUrl(urls, u) == urls[..k] + urls[k + 1..]
    decreases k
  {
    if k > 0 {
      assert urls[0] in urls[..k];
      assert urls[1..][..k - 1] == urls[1..k];
      assert u !in urls[1..k];
      WithoutUrlCutsFirst(urls[1..], u, k - 1);
      assert urls[..k] == [urls[0]] + urls[1..][..k - 1];
      assert urls[k + 1..] == urls[1..][k..];
    }
  }

  /** Whether the result stored for `url` says available; a missing entry counts as not available. */
  function PreviouslyAvailable(states: map<string, CheckResult>, url: string): bool {
    url in states && states[url].available
  }

  /** The edge that triggers a notification: available now, not available before. */
  predicate IsEdge(states: map<string, CheckResult>, url: string, r: CheckResult) {
    r.available && !PreviouslyAvailable(states, url)
  }

  /** The result recorded for a URL whose per-URL block raised. */
  function FailedCheck(url: string, message: string): CheckResult {
    CheckResult(url, None, false, CheckFailedStatus, Some(message))
  }

  /** One URL's turn of `check_all_urls`, after the checker returned `r`. */
  function Step(c: CycleOutcome, url: string, r: CheckResult, loopRunning: bool): (s: CycleOutcome)
    ensures loopRunning ==> s.results == c.results + [r] && s.states == c.states[url := r]
  {
    if IsEdge(c.states, url, r) then
      if loopRunning then CycleOutcome(c.results + [r], c.states[url := r], c.scheduled + [r])
      // creating the task raises; the per-URL handler adds a failed result and skips the update
      else CycleOutcome(c.results + [r, FailedCheck(url, NoRunningLoop)], c.states, c.scheduled)
    else CycleOutcome(c.results + [r], c.states[url := r], c.scheduled)
  }

  /** What the checker returns for each URL in turn. */
  function CheckerResults(checker: BookMyShowScraper, urls: seq<string>, probes: seq<Probe>): (rs: seq<CheckResult>)
    requires |urls| == |probes|
    ensures |rs| == |urls|
    decreases |urls|
  {
    if urls == [] then []
    else
      var n := |urls| - 1;
      CheckerResults(checker, urls[..n], probes[..n])
        + [Assess(urls[n], probes[n].outcome, checker.bookingIndicators, checker.unavailableIndicators)]
  }

  /** The checker's i-th result is the classification of the i-th URL, and carries that URL. */
  lemma {:induction false} CheckerResultsAt(checker: BookMyShowScraper, urls: seq<string>, probes: seq<Probe>)
    requires |urls| == |probes|
    ensures Labelled(urls, CheckerResults(checker, urls, probes))
    ensures forall i :: 0 <= i < |urls| ==>
      CheckerResults(checker, urls, probes)[i]
        == Assess(urls[i], probes[i].outcome, checker.bookingIndicators, checker.unavailableIndicators)
    decreases |urls|
  {
    if urls != [] {
      var n := |urls| - 1;
      CheckerResultsAt(checker, urls[..n], probes[..n]);
      var rs := CheckerResults(checker, urls, probes);
      assert rs == CheckerResults(checker, urls[..n], probes[..n])
        + [Assess(urls[n], probes[n].outcome, checker.bookingIndicators, checker.unavailableIndicators)];
      forall i | 0 <= i < n
        ensures rs[i] == Assess(urls[i], probes[i].outcome, checker.bookingIndicators, checker.unavailableIndicators)
      {
        assert urls[..n][i] == urls[i] && probes[..n][i] == probes[i];
      }
    }
  }

  /** The checker's results for one more URL are those for the shorter list plus that URL's. */
  lemma {:induction false} CheckerResultsExtends(checker: BookMyShowScraper, urls: seq<string>, probes: seq<Probe>, i: nat)
    requires |urls| == |probes| && i < |urls|
    ensures CheckerResults(checker, urls[..i + 1], probes[..i + 1])
         == CheckerResults(checker, urls[..i], probes[..i])
            + [Assess(urls[i], probes[i].outcome, checker.bookingIndicators, checker.unavailableIndicators)]
  {
    assert urls[..i + 1][..i] == urls[..i] && probes[..i + 1][..i] == probes[..i];
  }

  /**
   * One pass of `check_all_urls` over `urls`, from the stored states
   * `before`, where the checker returns `checked[i]` for `urls[i]`.
   */
  function RunCycle(urls: seq<string>, checked: seq<CheckResult>, before: map<string, CheckResult>, loopRunning: bool): (c: CycleOutcome)
    requires |urls| == |checked|
    ensures loopRunning ==> c.results == checked
    ensures |c.scheduled| <= |urls|
    decreases |urls|
  {
    if urls == [] then CycleOutcome([], before, [])
    else
      var n := |urls| - 1;
      var c := RunCycle(urls[..n], checked[..n], before, loopRunning);
      assert checked == checked[..n] + [checked[n]];
      Step(c, urls[n], checked[n], loopRunning)
  }

  /** A pass over one more URL is the shorter pass followed by that URL's turn. */
  lemma {:induction false} RunCycleExtends(urls: seq<string>, checked: seq<CheckResult>, r: CheckResult, before: map<string, CheckResult>, loopRunning: bool, i: nat)
    requires i < |urls| && |checked| == i
    ensures RunCycle(urls[..i + 1], checked + [r], before, loopRunning)
         == Step(RunCycle(urls[..i], checked, before, loopRunning), urls[i], r, loopRunning)
  {
    assert urls[..i + 1][..i] == urls[..i] && (checked + [r])[..i] == checked;
  }

  /** `states` holds for `u` exactly what `before` holds: the same entry, or none. */
  predicate StateKept(states: map<string, CheckResult>, before: map<string, CheckResult>, u: string) {
    (u in states <==> u in before) && (u in before ==> states[u] == before[u])
  }

  /** A pass leaves the stored state of every URL it does not check as it was. */
  lemma {:induction false} UncheckedStatesKept(urls: seq<string>, checked: seq<CheckResult>, before: map<string, CheckResult>, loopRunning: bool, u: string)
    requires |urls| == |checked| && u !in urls
    ensures StateKept(RunCycle(urls, checked, before, loopRunning).states, before, u)
    decreases |urls|
  {
    if urls != [] {
      var n := |urls| - 1;
      assert u !in urls[..n] && u != urls[n];
      UncheckedStatesKept(urls[..n], checked[..n], before, loopRunning, u);
    }
  }

  /**
   * Reference definition of the notifications one pass should schedule: the
   * results that are available while the state stored before the pass says
   * not available, in list order.
   */
  function Edges(urls: seq<string>, checked: seq<CheckResult>, before: map<string, CheckResult>): seq<CheckResult>
    requires |urls| == |checked|
    decreases |urls|
  {
    if urls == [] then []
    else
      var n := |urls| - 1;
      Edges(urls[..n], checked[..n], before) + (if IsEdge(before, urls[n], checked[n]) then [checked[n]] else [])
  }

  /** Results that carry the URL they were produced for. */
  ghost predicate Labelled(urls: seq<string>, checked: seq<CheckResult>) {
    |urls| == |checked| && forall i :: 0 <= i < |urls| ==> checked[i].url == urls[i]
  }

  /**
   * What `Edges` holds: exactly the results of the URLs that are on an edge,
   * each URL at most once.
   */
  lemma {:induction false} EdgesMembers(urls: seq<string>, checked: seq<CheckResult>, before: map<string, CheckResult>)
    requires Labelled(urls, checked) && NoDuplicates(urls)
    ensures forall k :: 0 <= k < |Edges(urls, checked, before)| ==>
      Edges(urls, checked, before)[k] in checked && IsEdge(before, Edges(urls, checked, before)[k].url, Edges(urls, checked, before)[k])
    ensures forall i :: 0 <= i < |urls| && IsEdge(before, urls[i], checked[i]) ==> checked[i] in Edges(urls, checked, before)
    ensures forall k1, k2 :: 0 <= k1 < k2 < |Edges(urls, checked, before)| ==>
      Edges(urls, checked, before)[k1].url != Edges(urls, checked, before)[k2].url
    decreases |urls|
  {
    if urls != [] {
      var n := |urls| - 1;
      var pre, pc := urls[..n], checked[..n];
      assert NoDuplicates(pre);
      EdgesMembers(pre, pc, before);
      var e := Edges(pre, pc, before);
      var all := Edges(urls, checked, before);
      assert all == e + (if IsEdge(before, urls[n], checked[n]) then [checked[n]] else []);
      forall i | 0 <= i < |urls| && IsEdge(before, urls[i], checked[i])
        ensures checked[i] in all
      {
        if i < n {
          assert pre[i] == urls[i] && pc[i] == checked[i];
        }
      }
      forall k1, k2 | 0 <= k1 < k2 < |all| ensures all[k1].url != all[k2].url {
        if k2 >= |e| {
          var i :| 0 <= i < |pre| && e[k1] == pc[i] && IsEdge(before, pre[i], pc[i]);
          assert all[k1].url == urls[i];
          assert all[k2].url == urls[n];
        }
      }
      forall k | 0 <= k < |all| ensures all[k] in checked && IsEdge(before, all[k].url, all[k]) {
        if k < |e| {
          assert e[k] in pc;
        }
      }
    } else {
      assert Edges(urls, checked, before) == [];
    }
  }

  /**
   * With a running event loop, a pass over duplicate-free URLs schedules
   * exactly the reference edges: each test is made against the state stored
   * before the pass, because no URL is checked twice in it.
   */
  lemma {:induction false} ScheduledAreEdges(urls: seq<string>, checked: seq<CheckResult>, before: map<string, CheckResult>)
    requires |urls| == |checked| && NoDuplicates(urls)
    ensures RunCycle(urls, checked, before, true).scheduled == Edges(urls, checked, before)
    decreases |urls|
  {
    if urls != [] {
      var n := |urls| - 1;
      assert NoDuplicates(urls[..n]);
      ScheduledAreEdges(urls[..n], checked[..n], before);
      assert urls[n] !in urls[..n];
      UncheckedStatesKept(urls[..n], checked[..n], before, true, urls[n]);
    }
  }

  /**
   * With a running event loop and duplicate-free URLs, after a pass every
   * URL's stored state is the result of its check in this pass.
   */
  lemma {:induction false} StoresLatest(urls: seq<string>, checked: seq<CheckResult>, before: map<string, CheckResult>)
    requires |urls| == |checked| && NoDuplicates(urls)
    ensures forall i :: 0 <= i < |urls| ==>
      urls[i] in RunCycle(urls, checked, before, true).states &&
      RunCycle(urls, checked, before, true).states[urls[i]] == checked[i]
    decreases |urls|
  {
    if urls != [] {
      var n := |urls| - 1;
      assert NoDuplicates(urls[..n]);
      StoresLatest(urls[..n], checked[..n], before);
      var c := RunCycle(urls[..n], checked[..n], before, true);
      var states := RunCycle(urls, checked, before, true).states;
      assert states == c.states[urls[n] := checked[n]];
      forall i | 0 <= i < |urls| ensures urls[i] in states && states[urls[i]] == checked[i] {
        if i < n {
          assert urls[..n][i] == urls[i] && checked[..n][i] == checked[i];
          assert urls[i] != urls[n];
        }
      }
    }
  }

  /** A reference edge that carries a URL is that URL's new result, and the URL is on an edge. */
  lemma {:induction false} EdgeOfUrl(urls: seq<string>, checked: seq<CheckResult>, before: map<string, CheckResult>, i: nat, k: nat)
    requires Labelled(urls, checked) && NoDuplicates(urls) && i < |urls|
    requires k < |Edges(urls, checked, before)| && Edges(urls, checked, before)[k].url == urls[i]
    ensures Edges(urls, checked, before)[k] == checked[i] && IsEdge(before, urls[i], checked[i])
  {
    var E := Edges(urls, checked, before);
    EdgesMembers(urls, checked, before);
    assert E[k] in checked;
    var j :| 0 <= j < |checked| && E[k] == checked[j];
    assert urls[j] == urls[i];
  }

  /** The reference edges name a URL exactly when it is on an edge, and then once, with its new result. */
  lemma {:induction false} EdgeForUrl(urls: seq<string>, checked: seq<CheckResult>, before: map<string, CheckResult>, i: nat)
    requires Labelled(urls, checked) && NoDuplicates(urls) && i < |urls|
    ensures var E := Edges(urls, checked, before);
      (exists k :: 0 <= k < |E| && E[k].url == urls[i]) <==> IsEdge(before, urls[i], checked[i])
    ensures var E := Edges(urls, checked, before);
      forall k :: 0 <= k < |E| && E[k].url == urls[i] ==>
        E[k] == checked[i] && forall k' :: 0 <= k' < |E| && k' != k ==> E[k'].url != urls[i]
  {
    var E := Edges(urls, checked, before);
    forall k | 0 <= k < |E| && E[k].url == urls[i]
      ensures E[k] == checked[i] && IsEdge(before, urls[i], checked[i])
    {
      EdgeOfUrl(urls, checked, before, i, k);
    }
    forall k, k' | 0 <= k < |E| && 0 <= k' < |E| && k != k' && E[k].url == urls[i]
      ensures E[k'].url != urls[i]
    {
      EdgesMembers(urls, checked, before);
    }
    if IsEdge(before, urls[i], checked[i]) {
      EdgesMembers(urls, checked, before);
      assert checked[i] in E;
      var k :| 0 <= k < |E| && E[k] == checked[i];
      assert E[k].url == urls[i];
      assert E == Edges(urls, checked, before);
    }
  }

  /**
   * With a running event loop, a notification is scheduled for a tracked URL
   * if and only if its check found tickets while the state stored before the
   * pass (absent meaning not available) did not, and then exactly one,
   * carrying the new result.
   */
  lemma {:induction false} NotifiesExactlyOnEdge(urls: seq<string>, checked: seq<CheckResult>, before: map<string, CheckResult>, i: nat)
    requires Labelled(urls, checked) && NoDuplicates(urls) && i < |urls|
    ensures var c := RunCycle(urls, checked, before, true);
      (exists k :: 0 <= k < |c.scheduled| && c.scheduled[k].url == urls[i]) <==> IsEdge(before, urls[i], checked[i])
    ensures var c := RunCycle(urls, checked, before, true);
      forall k :: 0 <= k < |c.scheduled| && c.scheduled[k].url == urls[i] ==>
        c.scheduled[k] == checked[i] &&
        forall k' :: 0 <= k' < |c.scheduled| && k' != k ==> c.scheduled[k'].url != urls[i]
  {
    ScheduledAreEdges(urls, checked, before);
    EdgeForUrl(urls, checked, before, i);
  }

  /**
   * A URL that was removed (so its stored state was dropped) and added again
   * starts from "not available": a pass that finds its tickets available
   * schedules a notification for it. The first sight of a URL is therefore
   * not a silent baseline.
   */
  lemma {:induction false} ReaddedUrlNotifies(urls: seq<string>, checked: seq<CheckResult>, before: map<string, CheckResult>, i: nat)
    requires Labelled(urls, checked) && NoDuplicates(urls) && i < |urls| && checked[i].available
    ensures checked[i] in RunCycle(urls, checked, before - {urls[i]}, true).scheduled
  {
    ScheduledAreEdges(urls, checked, before - {urls[i]});
    EdgesMembers(urls, checked, before - {urls[i]});
  }

  /**
   * Reference definition of the results a pass returns when creating a task
   * raises: every URL's own result in list order, each edge's followed
   * directly by a failed result for that URL.
   */
  function NoLoopResults(urls: seq<string>, checked: seq<CheckResult>, before: map<string, CheckResult>): seq<CheckResult>
    requires |urls| == |checked|
    decreases |urls|
  {
    if urls == [] then []
    else
      var n := |urls| - 1;
      NoLoopResults(urls[..n], checked[..n], before) + [checked[n]]
        + (if IsEdge(before, urls[n], checked[n]) then [FailedCheck(urls[n], NoRunningLoop)] else [])
  }

  /**
   * What `NoLoopResults` holds: one result per URL plus one failed result per
   * edge, every URL's own result, and the failed result of every edge URL.
   */
  lemma {:induction false} NoLoopResultsContents(urls: seq<string>, checked: seq<CheckResult>, before: map<string, CheckResult>)
    requires |urls| == |checked|
    ensures var rs := NoLoopResults(urls, checked, before);
      && |rs| == |urls| + |Edges(urls, checked, before)|
      && (forall i :: 0 <= i < |urls| ==> checked[i] in rs)
      && (forall i :: 0 <= i < |urls| && IsEdge(before, urls[i], checked[i]) ==> FailedCheck(urls[i], NoRunningLoop) in rs)
    decreases |urls|
  {
    if urls != [] {
      var n := |urls| - 1;
      NoLoopResultsContents(urls[..n], checked[..n], before);
      forall i | 0 <= i < n
        ensures urls[..n][i] == urls[i] && checked[..n][i] == checked[i]
      {
      }
    }
  }

  /**
   * `NoLoopResults` holds nothing else: each entry is some URL's own result,
   * or the failed result of a URL on an edge.
   */
  lemma {:induction false} NoLoopResultsOnly(urls: seq<string>, checked: seq<CheckResult>, before: map<string, CheckResult>)
    requires |urls| == |checked|
    ensures forall x :: x in NoLoopResults(urls, checked, before) ==>
      (exists i :: 0 <= i < |urls| &&
        (x == checked[i] || (IsEdge(before, urls[i], checked[i]) && x == FailedCheck(urls[i], NoRunningLoop))))
    decreases |urls|
  {
    if urls != [] {
      var n := |urls| - 1;
      NoLoopResultsOnly(urls[..n], checked[..n], before);
      var front := NoLoopResults(urls[..n], checked[..n], before);
      forall x | x in NoLoopResults(urls, checked, before)
        ensures (exists i :: 0 <= i < |urls| &&
                   (x == checked[i] || (IsEdge(before, urls[i], checked[i]) && x == FailedCheck(urls[i], NoRunningLoop))))
      {
        if x in front {
          var i :| 0 <= i < n && (x == checked[..n][i]
            || (IsEdge(before, urls[..n][i], checked[..n][i]) && x == FailedCheck(urls[..n][i], NoRunningLoop)));
          assert urls[..n][i] == urls[i] && checked[..n][i] == checked[i];
        } else {
          assert x == checked[n] || (IsEdge(before, urls[n], checked[n]) && x == FailedCheck(urls[n], NoRunningLoop));
        }
      }
    }
  }

  /** Without an event loop nothing is scheduled, and the results are those of `NoLoopResults`. */
  lemma {:induction false} NothingScheduledWithoutLoop(urls: seq<string>, checked: seq<CheckResult>, before: map<string, CheckResult>)
    requires |urls| == |checked| && NoDuplicates(urls)
    ensures var c := RunCycle(urls, checked, before, false);
      c.scheduled == [] && c.results == NoLoopResults(urls, checked, before)
    decreases |urls|
  {
    if urls != [] {
      var n := |urls| - 1;
      assert NoDuplicates(urls[..n]) && urls[n] !in urls[..n];
      NothingScheduledWithoutLoop(urls[..n], checked[..n], before);
      UncheckedStatesKept(urls[..n], checked[..n], before, false, urls[n]);
      var c0 := RunCycle(urls[..n], checked[..n], before, false);
      assert RunCycle(urls, checked, before, false) == Step(c0, urls[n], checked[n], false);
      assert IsEdge(c0.states, urls[n], checked[n]) == IsEdge(before, urls[n], checked[n]);
    }
  }

  /** Without an event loop an edge URL gets a failed result and keeps its stored state. */
  lemma {:induction false} EdgeKeptWithoutLoop(urls: seq<string>, checked: seq<CheckResult>, before: map<string, CheckResult>)
    requires |urls| == |checked| && NoDuplicates(urls)
    ensures var c := RunCycle(urls, checked, before, false);
      forall i :: 0 <= i < |urls| && IsEdge(before, urls[i], checked[i]) ==>
        FailedCheck(urls[i], NoRunningLoop) in c.results && StateKept(c.states, before, urls[i])
    decreases |urls|
  {
    if urls != [] {
      var n := |urls| - 1;
      assert NoDuplicates(urls[..n]);
      EdgeKeptWithoutLoop(urls[..n], checked[..n], before);
      var c0 := RunCycle(urls[..n], checked[..n], before, false);
      var c := RunCycle(urls, checked, before, false);
      assert c == Step(c0, urls[n], checked[n], false);
      assert urls[n] !in urls[..n];
      UncheckedStatesKept(urls[..n], checked[..n], before, false, urls[n]);
      forall i | 0 <= i < |urls| && IsEdge(before, urls[i], checked[i])
        ensures FailedCheck(urls[i], NoRunningLoop) in c.results && StateKept(c.states, before, urls[i])
      {
        if i < n {
          assert urls[..n][i] == urls[i] && checked[..n][i] == checked[i] && urls[i] != urls[n];
          assert FailedCheck(urls[i], NoRunningLoop) in c0.results;
        } else {
          assert c.results == c0.results + [checked[n], FailedCheck(urls[n], NoRunningLoop)];
        }
      }
    }
  }

  /** Without an event loop a URL off an edge still has its new result stored. */
  lemma {:induction false} NonEdgeStoredWithoutLoop(urls: seq<string>, checked: seq<CheckResult>, before: map<string, CheckResult>)
    requires |urls| == |checked| && NoDuplicates(urls)
    ensures var c := RunCycle(urls, checked, before, false);
      forall i :: 0 <= i < |urls| && !IsEdge(before, urls[i], checked[i]) ==>
        urls[i] in c.states && c.states[urls[i]] == checked[i]
    decreases |urls|
  {
    if urls != [] {
      var n := |urls| - 1;
      assert NoDuplicates(urls[..n]);
      NonEdgeStoredWithoutLoop(urls[..n], checked[..n], before);
      assert urls[n] !in urls[..n];
      UncheckedStatesKept(urls[..n], checked[..n], before, false, urls[n]);
      var c0 := RunCycle(urls[..n], checked[..n], before, false);
      var c := RunCycle(urls, checked, before, false);
      assert c == Step(c0, urls[n], checked[n], false);
      forall i | 0 <= i < |urls| && !IsEdge(before, urls[i], checked[i])
        ensures urls[i] in c.states && c.states[urls[i]] == checked[i]
      {
        if i < n {
          assert urls[..n][i] == urls[i] && checked[..n][i] == checked[i] && urls[i] != urls[n];
        }
      }
    }
  }

  /**
   * As written, inside the monitor thread (where no event loop is running)
   * every edge raises when the task is created: nothing is ever scheduled,
   * the URL gets its result and then a failed result, and its stored state
   * is not updated, so the same edge is found again on the next pass. URLs
   * that are not on an edge are recorded as usual.
   */
  lemma {:induction false} MonitorThreadLosesNotifications(urls: seq<string>, checked: seq<CheckResult>, before: map<string, CheckResult>)
    requires |urls| == |checked| && NoDuplicates(urls)
    ensures var c := RunCycle(urls, checked, before, false);
      && c.scheduled == []
      && c.results == NoLoopResults(urls, checked, before)
      && |c.results| == |urls| + |Edges(urls, checked, before)|
      && (forall i :: 0 <= i < |urls| ==> checked[i] in c.results)
      && (forall i :: 0 <= i < |urls| && IsEdge(before, urls[i], checked[i]) ==>
            && FailedCheck(urls[i], NoRunningLoop) in c.results
            && StateKept(c.states, before, urls[i])
            && IsEdge(c.states, urls[i], checked[i]))
      && (forall i :: 0 <= i < |urls| && !IsEdge(before, urls[i], checked[i]) ==>
            urls[i] in c.states && c.states[urls[i]] == checked[i])
  {
    NothingScheduledWithoutLoop(urls, checked, before);
    NoLoopResultsContents(urls, checked, before);
    EdgeKeptWithoutLoop(urls, checked, before);
    NonEdgeStoredWithoutLoop(urls, checked, before);
  }

  /** The text of the availability notification for result `r`, sent at `sentAt`. */
  function AvailabilityMessage(r: CheckResult, sentAt: string): (m: string)
    ensures Occurs(m, r.title.GetOr(DefaultTitle))
    ensures Occurs(m, r.status)
    ensures Occurs(m, r.url)
    ensures Occurs(m, sentAt)
  {
    var title := r.title.GetOr(DefaultTitle);
    var p0 := "\U{1F3AC} TICKETS AVAILABLE! \U{1F3AC}\n\n\U{1F3AD} Movie: ";
    var p1 := "\n\U{2705} Status: ";
    var p2 := "\n\U{1F517} URL: ";
    var p3 := "\n\n\U{1F3C3}\U{200D}\U{2642}\U{FE0F} Hurry up and book your tickets now!\n\U{23F0} Notification sent at: ";
    var tail := p3 + sentAt;
    var fromUrl := r.url + tail;
    var fromStatus := r.status + (p2 + fromUrl);
    var fromTitle := title + (p1 + fromStatus);
    OccursAtFront(title, p1 + fromStatus);
    OccursAtFront(r.status, p2 + fromUrl);
    OccursBehind(p1, fromStatus, r.status);
    OccursBehind(title, p1 + fromStatus, r.status);
    OccursAtFront(r.url, tail);
    OccursBehind(p2, fromUrl, r.url);
    OccursBehind(r.status, p2 + fromUrl, r.url);
    OccursBehind(p1, fromStatus, r.url);
    OccursBehind(title, p1 + fromStatus, r.url);
    OccursAtFront(sentAt, []);
    assert sentAt + [] == sentAt;
    OccursBehind(p3, sentAt, sentAt);
    OccursBehind(r.url, tail, sentAt);
    OccursBehind(p2, fromUrl, sentAt);
    OccursBehind(r.status, p2 + fromUrl, sentAt);
    OccursBehind(p1, fromStatus, sentAt);
    OccursBehind(title, p1 + fromStatus, sentAt);
    OccursBehind(p0, fromTitle, title);
    OccursBehind(p0, fromTitle, r.status);
    OccursBehind(p0, fromTitle, r.url);
    OccursBehind(p0, fromTitle, sentAt);
    var m := p0 + fromTitle;
    m
  }

  /** A chat id Python treats as set (`None` and the empty string are not). */
  predicate ChatConfigured(chatId: Option<string>) {
    chatId.Some? && chatId.value != ""
  }

  /** A list of n distinct URLs names n URLs. */
  lemma {:induction false} DistinctCount(s: seq<string>)
    requires NoDuplicates(s)
    ensures |set u | u in s| == |s|
    decreases |s|
  {
    if s != [] {
      var n := |s| - 1;
      assert NoDuplicates(s[..n]);
      DistinctCount(s[..n]);
      assert (set u | u in s) == (set u | u in s[..n]) + {s[n]};
      assert s[n] !in (set u | u in s[..n]);
    }
  }

  class BookingMonitor {
    const chatId: Option<string>
    const checkInterval: nat
    const scraper: BookMyShowScraper
    var isRunning: bool
    var monitoredUrls: seq<string>
    var previousStates: map<string, CheckResult>
    var checksPerformed: nat
    var notificationsSent: nat
    /** Results whose availability notification task was created, in creation order. */
    var scheduled: seq<CheckResult>
    /** Messages the chat transport accepted, in order. */
    var delivered: seq<string>

    /**
     * No URL is tracked twice; states are kept only for tracked URLs, each
     * under its own URL; the counter of sent notifications counts the
     * delivered messages.
     */
    ghost predicate Valid()
      reads this
    {
      && NoDuplicates(monitoredUrls)
      && (forall u :: u in previousStates ==> u in monitoredUrls && previousStates[u].url == u)
      && notificationsSent == |delivered|
    }

    constructor (chatId: Option<string>)
      ensures Valid()
      ensures this.chatId == chatId && checkInterval == CheckInterval && !isRunning
      ensures monitoredUrls == DefaultUrls && previousStates == map[]
      ensures checksPerformed == 0 && notificationsSent == 0
      ensures scheduled == [] && delivered == []
      ensures fresh(scraper) && scraper.lastRequestTime == 0
      ensures scraper.bookingIndicators == BookingIndicators && scraper.unavailableIndicators == UnavailableIndicators
    {
      this.chatId := chatId;
      checkInterval := CheckInterval;
      scraper := new BookMyShowScraper();
      isRunning := false;
      monitoredUrls := DefaultUrls;
      previousStates := map[];
      checksPerformed, notificationsSent := 0, 0;
      scheduled, delivered := [], [];
    }

    /** `add_url`: track `url` unless it is tracked already; says whether it was added. */
    method AddUrl(url: string) returns (added: bool)
      requires Valid()
      modifies this
      ensures Valid()
      ensures added <==> url !in old(monitoredUrls)
      ensures monitoredUrls == WithUrl(old(monitoredUrls), url)
      ensures added ==> monitoredUrls == old(monitoredUrls) + [url]
      ensures !added ==> monitoredUrls == old(monitoredUrls)
      ensures previousStates == old(previousStates) && checksPerformed == old(checksPerformed)
      ensures notificationsSent == old(notificationsSent) && isRunning == old(isRunning)
      ensures scheduled == old(scheduled) && delivered == old(delivered)
    {
      if url !in monitoredUrls {
        monitoredUrls := monitoredUrls + [url];
        added := true;
      } else {
        added := false;
      }
    }

    /** `remove_url`: stop tracking `url` and drop its stored state; says whether it was tracked. */
    method RemoveUrl(url: string) returns (removed: bool)
      requires Valid()
      modifies this
      ensures Valid()
      ensures removed <==> url in old(monitoredUrls)
      ensures monitoredUrls == WithoutUrl(old(monitoredUrls), url)
      ensures url !in monitoredUrls && url !in previousStates
      ensures forall u :: u != url ==> (u in monitoredUrls <==> u in old(monitoredUrls))
      ensures previousStates == old(previousStates) - {url}
      ensures !removed ==> monitoredUrls == old(monitoredUrls) && previousStates == old(previousStates)
      ensures checksPerformed == old(checksPerformed) && notificationsSent == old(notificationsSent)
      ensures isRunning == old(isRunning) && scheduled == old(scheduled) && delivered == old(delivered)
    {
      if url in monitoredUrls {
        monitoredUrls := WithoutUrl(monitoredUrls, url);
        if url in previousStates {
          previousStates := previousStates - {url};
        }
        removed := true;
      } else {
        removed := false;
      }
    }

    /**
     * `send_notification`: nothing happens without a chat id; otherwise the
     * message is handed to the transport and counted only if it accepted it.
     */
    method SendNotification(message: string, transportOk: bool) returns (sent: bool)
      requires Valid()
      modifies this
      ensures Valid()
      ensures sent <==> ChatConfigured(chatId) && transportOk
      ensures delivered == old(delivered) + (if sent then [message] else [])
      ensures notificationsSent == old(notificationsSent) + (if sent then 1 else 0)
      ensures monitoredUrls == old(monitoredUrls) && previousStates == old(previousStates)
      ensures checksPerformed == old(checksPerformed) && isRunning == old(isRunning)
      ensures scheduled == old(scheduled)
    {
      sent := false;
      if !ChatConfigured(chatId) {
        return;
      }
      if transportOk {
        delivered := delivered + [message];
        notificationsSent := notificationsSent + 1;
        sent := true;
      }
    }

    /** `send_availability_notification`: send the message announcing result `r`. */
    method SendAvailabilityNotification(r: CheckResult, sentAt: string, transportOk: bool) returns (sent: bool)
      requires Valid()
      modifies this
      ensures Valid()
      ensures sent <==> ChatConfigured(chatId) && transportOk
      ensures delivered == old(delivered) + (if sent then [AvailabilityMessage(r, sentAt)] else [])
      ensures notificationsSent == old(notificationsSent) + (if sent then 1 else 0)
      ensures monitoredUrls == old(monitoredUrls) && previousStates == old(previousStates)
      ensures checksPerformed == old(checksPerformed) && isRunning == old(isRunning)
      ensures scheduled == old(scheduled)
    {
      sent := SendNotification(AvailabilityMessage(r, sentAt), transportOk);
    }

    /**
     * The rest of one URL's turn in `check_all_urls`, once the checker
     * returned `r`: record it, and on an edge schedule the notification
     * (which fails when no event loop is running). `c` is the pass so far,
     * whose results are `results` and whose states are the stored ones.
     */
    method RecordResult(results: seq<CheckResult>, url: string, r: CheckResult, loopRunning: bool,
                        ghost c: CycleOutcome, ghost base: seq<CheckResult>)
      returns (results': seq<CheckResult>)
      requires Valid() && url in monitoredUrls && r.url == url
      requires c.results == results && c.states == previousStates && scheduled == base + c.scheduled
      modifies this
      ensures Valid()
      ensures var c' := Step(c, url, r, loopRunning);
        results' == c'.results && previousStates == c'.states && scheduled == base + c'.scheduled
      ensures monitoredUrls == old(monitoredUrls) && isRunning == old(isRunning)
      ensures checksPerformed == old(checksPerformed)
      ensures notificationsSent == old(notificationsSent) && delivered == old(delivered)
    {
      var previousAvailable := url in previousStates && previousStates[url].available;
      if r.available && !previousAvailable {
        if loopRunning {
          results' := results + [r];
          scheduled := scheduled + [r];
          previousStates := previousStates[url := r];
          assert scheduled == base + (c.scheduled + [r]);
        } else {
          results' := results + [r, FailedCheck(url, NoRunningLoop)];
        }
      } else {
        results' := results + [r];
        previousStates := previousStates[url := r];
      }
    }

    /**
     * The monitor is `i` URLs into a pass over `urls` that started from the
     * stored states `before` and the scheduled tasks `base`: `checked` is what
     * the checker returned so far, and the results, stored states and
     * scheduled tasks are those of the pass over the first `i` URLs.
     */
    ghost predicate PassedPrefix(urls: seq<string>, probes: seq<Probe>, before: map<string, CheckResult>,
                                 base: seq<CheckResult>, loopRunning: bool, i: nat,
                                 checked: seq<CheckResult>, results: seq<CheckResult>)
      reads this
    {
      && Valid() && monitoredUrls == urls && |probes| == |urls| && i <= |urls|
      && checked == CheckerResults(scraper, urls[..i], probes[..i])
      && var c := RunCycle(urls[..i], checked, before, loopRunning);
         results == c.results && previousStates == c.states && scheduled == base + c.scheduled
    }

    /**
     * The body of the loop in `check_all_urls` for the i-th URL: ask the
     * checker, then record its result.
     */
    method CheckNext(urls: seq<string>, probes: seq<Probe>, loopRunning: bool, ghost before: map<string, CheckResult>,
                     ghost base: seq<CheckResult>, i: nat, ghost checked: seq<CheckResult>, results: seq<CheckResult>)
      returns (results': seq<CheckResult>, ghost checked': seq<CheckResult>)
      requires PassedPrefix(urls, probes, before, base, loopRunning, i, checked, results) && i < |urls|
      modifies this, scraper
      ensures PassedPrefix(urls, probes, before, base, loopRunning, i + 1, checked', results')
      ensures checksPerformed == old(checksPerformed) && isRunning == old(isRunning)
      ensures notificationsSent == old(notificationsSent) && delivered == old(delivered)
      ensures scraper.lastRequestTime >= old(scraper.lastRequestTime) + MinRequestInterval
    {
      var r := scraper.CheckTicketAvailability(urls[i], probes[i].now, probes[i].overshoot, probes[i].outcome);
      ghost var c := RunCycle(urls[..i], checked, before, loopRunning);
      results' := RecordResult(results, urls[i], r, loopRunning, c, base);
      RunCycleExtends(urls, checked, r, before, loopRunning, i);
      CheckerResultsExtends(scraper, urls, probes, i);
      checked' := checked + [r];
    }

    /**
     * `check_all_urls`: one pass over the tracked URLs, in order, with
     * `probes[i]` what happens while the i-th is checked. `loopRunning` says
     * whether an event loop is running in the calling thread, which decides
     * whether creating a notification task succeeds.
     */
    method CheckAllUrls(probes: seq<Probe>, loopRunning: bool) returns (results: seq<CheckResult>)
      requires Valid() && |probes| == |monitoredUrls|
      modifies this, scraper
      ensures Valid()
      ensures var c := RunCycle(old(monitoredUrls), CheckerResults(scraper, old(monitoredUrls), probes), old(previousStates), loopRunning);
        results == c.results && previousStates == c.states && scheduled == old(scheduled) + c.scheduled
      ensures checksPerformed == old(checksPerformed) + 1
      ensures monitoredUrls == old(monitoredUrls) && isRunning == old(isRunning)
      ensures notificationsSent == old(notificationsSent) && delivered == old(delivered)
      ensures scraper.lastRequestTime >= old(scraper.lastRequestTime) + MinRequestInterval * |monitoredUrls|
    {
      var urls := monitoredUrls;
      ghost var checked: seq<CheckResult> := [];
      results := [];
      var i := 0;
      while i < |urls|
        invariant PassedPrefix(urls, probes, old(previousStates), old(scheduled), loopRunning, i, checked, results)
        invariant checksPerformed == old(checksPerformed) && isRunning == old(isRunning)
        invariant notificationsSent == old(notificationsSent) && delivered == old(delivered)
        invariant scraper.lastRequestTime >= old(scraper.lastRequestTime) + MinRequestInterval * i
      {
        results, checked := CheckNext(urls, probes, loopRunning, old(previousStates), old(scheduled), i, checked, results);
        i := i + 1;
      }
      assert urls[..i] == urls && probes[..i] == probes;
      checksPerformed := checksPerformed + 1;
    }

    /** `get_monitoring_stats`, without the uptime. */
    function Stats(): (s: MonitoringStats)
      reads this
      requires Valid()
      ensures s.urlsMonitored == |set u | u in monitoredUrls|
      ensures s.notificationsSent == |delivered|
      ensures s.checksPerformed == checksPerformed && s.isRunning == isRunning
      ensures s.checkInterval == checkInterval
    {
      DistinctCount(monitoredUrls);
      MonitoringStats(isRunning, |monitoredUrls|, checksPerformed, notificationsSent, checkInterval)
    }

    /** `stop_monitoring`: clear the running flag; nothing else changes. */
    method StopMonitoring()
      modifies this
      ensures !isRunning
      ensures monitoredUrls == old(monitoredUrls) && previousStates == old(previousStates)
      ensures checksPerformed == old(checksPerformed) && notificationsSent == old(notificationsSent)
      ensures scheduled == old(scheduled) && delivered == old(delivered)
    {
      isRunning := false;
    }
  }

  /** Adding a URL that was not tracked and removing it again restores the list exactly. */
  lemma {:induction false} RemoveUndoesAdd(urls: seq<string>, u: string)
    requires u !in urls
    ensures WithoutUrl(WithUrl(urls, u), u) == urls
  {
    var w := urls + [u];
    assert w[..|urls|] == urls && w[|urls| + 1..] == [];
    WithoutUrlCutsFirst(w, u, |urls|);
  }

  /** Adding a URL twice is the same as adding it once. */
  lemma {:induction false} AddIsIdempotent(urls: seq<string>, u: string)
    ensures WithUrl(WithUrl(urls, u), u) == WithUrl(urls, u)
  {
  }
}
