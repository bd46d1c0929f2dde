/** The pacing of `Scraper.run`: after each scrape it sleeps
    `SCRAPE_INTERVAL - ((time.time() - start_time) % SCRAPE_INTERVAL)`, so
    that scrapes begin on the grid start_time + k * SCRAPE_INTERVAL however
    long each one takes. Times are whole time units. */
module Schedule {

  /** `SCRAPE_INTERVAL` (10.0 seconds). */
  const ScrapeInterval: int := 10

  lemma MulAtLeast(d: int, m: int)
    requires m > 0
    ensures d >= 1 ==> d * m >= m
    ensures d <= -1 ==> d * m <= -m
  {
    if d >= 1 {
      assert d * m == (d - 1) * m + m;
    }
    if d <= -1 {
      assert d * m == (d + 1) * m - m;
    }
  }

  /** Euclidean division is determined by its remainder's range. */
  lemma DivModUnique(x: int, q: int, r: int, m: int)
    requires m > 0 && 0 <= r < m && x == q * m + r
    ensures x % m == r && x / m == q
  {
    assert (q - x / m) * m == x % m - r;
    MulAtLeast(q - x / m, m);
  }

  /** The sleep after a scrape that ends at `now`, as `run` computes it:
      at least one unit and at most one interval, and it ends on the grid
      of multiples of the interval counted from `start`. Python's `%` with
      a positive interval is never negative, like Dafny's, so this holds
      even for a clock reading before `start`. */
  function SleepDelay(start: int, now: int): (d: int)
    ensures 1 <= d <= ScrapeInterval
    ensures (now + d - start) % ScrapeInterval == 0
  {
    var late := (now - start) % ScrapeInterval;
    var laps := (now - start) / ScrapeInterval;
    assert now + (ScrapeInterval - late) - start == (laps + 1) * ScrapeInterval;
    DivModUnique(now + (ScrapeInterval - late) - start, laps + 1, 0, ScrapeInterval);
    ScrapeInterval - late
  }

  /** When the next scrape begins, given that the last one began at `last`
      and took `d` units. */
  function NextWake(start: int, last: int, d: nat): int
  {
    var now := last + d;
    now + SleepDelay(start, now)
  }

  /** The times scrapes begin: the first at `start`, and each next one after
      the scrape before it has taken `durations[i]` units and the scraper has
      slept. */
  function WakeTimes(start: int, durations: seq<nat>): (w: seq<int>)
    ensures |w| == |durations| + 1
    ensures w[0] == start
    decreases |durations|
  {
    if durations == [] then [start]
    else
      var before := WakeTimes(start, durations[..|durations| - 1]);
      before + [NextWake(start, before[|before| - 1], durations[|durations| - 1])]
  }

  /** One more turn of the loop adds one wake-up time. */
  lemma WakeTimesStep(start: int, durations: seq<nat>, d: nat)
    ensures WakeTimes(start, durations + [d])
            == WakeTimes(start, durations) + [NextWake(start, WakeTimes(start, durations)[|durations|], d)]
  {
    var ds := durations + [d];
    assert ds[..|ds| - 1] == durations;
    assert ds[|ds| - 1] == d;
  }

  /** No drift: every scrape begins a whole number of intervals after
      `start`. */
  lemma {:induction false} WakeTimesOnGrid(start: int, durations: seq<nat>)
    ensures forall i :: 0 <= i < |durations| + 1 ==>
              (WakeTimes(start, durations)[i] - start) % ScrapeInterval == 0
    decreases |durations|
  {
    if durations != [] {
      var n := |durations| - 1;
      var init := durations[..n];
      WakeTimesOnGrid(start, init);
      var before := WakeTimes(start, init);
      var now := before[n] + durations[n];
      assert durations == init + [durations[n]];
      WakeTimesStep(start, init, durations[n]);
      var w := WakeTimes(start, durations);
      forall i | 0 <= i < n + 2
        ensures (w[i] - start) % ScrapeInterval == 0
      {
        if i <= n {
          assert w[i] == before[i];
        }
      }
    }
  }

  /** Each scrape begins strictly after the one before it has ended, and
      at most one interval after that. */
  lemma {:induction false} WakeTimesAfterScrape(start: int, durations: seq<nat>)
    ensures forall i :: 0 <= i < |durations| ==>
              WakeTimes(start, durations)[i] + durations[i] < WakeTimes(start, durations)[i + 1]
              <= WakeTimes(start, durations)[i] + durations[i] + ScrapeInterval
    decreases |durations|
  {
    if durations != [] {
      var n := |durations| - 1;
      var init := durations[..n];
      WakeTimesAfterScrape(start, init);
      var before := WakeTimes(start, init);
      var now := before[n] + durations[n];
      assert durations == init + [durations[n]];
      WakeTimesStep(start, init, durations[n]);
      var w := WakeTimes(start, durations);
      forall i | 0 <= i < n + 1
        ensures w[i] + durations[i] < w[i + 1] <= w[i] + durations[i] + ScrapeInterval
      {
        if i < n {
          assert w[i + 1] == before[i + 1] && w[i] == before[i] && durations[i] == init[i];
        }
      }
    }
  }

  /** When every scrape is shorter than the interval, scrape k begins
      exactly at start + k * ScrapeInterval: the time spent scraping is absorbed
      by the sleep instead of accumulating. */
  lemma {:induction false} NoDriftWhenScrapesAreShort(start: int, durations: seq<nat>)
    requires forall i :: 0 <= i < |durations| ==> durations[i] < ScrapeInterval
    ensures forall k :: 0 <= k <= |durations| ==>
              WakeTimes(start, durations)[k] == start + k * ScrapeInterval
    decreases |durations|
  {
    if durations != [] {
      var n := |durations| - 1;
      var init := durations[..n];
      NoDriftWhenScrapesAreShort(start, init);
      var before := WakeTimes(start, init);
      var now := before[n] + durations[n];
      assert before[n] == start + n * ScrapeInterval;
      DivModUnique(now - start, n, durations[n], ScrapeInterval);
      assert (n + 1) * ScrapeInterval == n * ScrapeInterval + ScrapeInterval;
      assert durations == init + [durations[n]];
      WakeTimesStep(start, init, durations[n]);
      assert NextWake(start, before[n], durations[n]) == start + (n + 1) * ScrapeInterval;
    }
  }

  /** With an interval of 10 and two scrapes of 3 units each, the scrapes
      begin at start, start + 10 and start + 20, not at start + 13 and
      start + 26 as a fixed sleep of one interval would give. */
  lemma ThreeUnitScrapes(start: int)
    ensures WakeTimes(start, [3, 3]) == [start, start + 10, start + 20]
  {
    NoDriftWhenScrapesAreShort(start, [3, 3]);
  }
}
