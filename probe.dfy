/**
 * One probe (`testRender` in load_test.js and rendertest.js): a page load in
 * its own browser, reduced to timings relative to navigation start.  The
 * browser itself is not modelled: what the page reports is an input.
 */
module Probe {
  import opened Wrappers

  /** The three fields of `window.performance.timing` the probe reads, in milliseconds since the epoch. */
  datatype PerformanceTiming = PerformanceTiming(navigationStart: int, domContentLoadedEventEnd: int, loadEventEnd: int)

  /** What `testRender` returns on success. */
  datatype Timing = Timing(navigationStart: int, domContentLoaded: int, loadEvent: int)

  /** How a probe's promise settles: it returns a timing or `null`, or it rejects. */
  datatype ProbeOutcome = Returned(result: Option<Timing>) | Rejected

  /**
   * The `try` block with its `catch`: `observed` is `None` when `goto` or
   * `evaluate` threw (navigation error, the 10 s timeout), and the probe
   * then returns `null`.  The differences are taken as they are: nothing
   * rejects a negative one.
   */
  function MeasuredTiming(observed: Option<PerformanceTiming>): (r: Option<Timing>)
    ensures r.Some? <==> observed.Some?
    ensures r.Some? ==> r.value.navigationStart == observed.value.navigationStart
    ensures r.Some? ==> r.value.navigationStart + r.value.domContentLoaded == observed.value.domContentLoadedEventEnd
    ensures r.Some? ==> r.value.navigationStart + r.value.loadEvent == observed.value.loadEventEnd
  {
    match observed
    case None => None
    case Some(p) =>
      Some(Timing(p.navigationStart, p.domContentLoadedEventEnd - p.navigationStart, p.loadEventEnd - p.navigationStart))
  }

  /**
   * `testRender(url)`.  `started` is false when `puppeteer.launch()` or
   * `browser.newPage()` threw: they run before the `try`, so the error is
   * not caught.  `closed` is false when `browser.close()` threw in the
   * `finally`, which replaces whatever the `try` or the `catch` returned.
   * In both cases the probe's promise rejects.
   */
  function TestRender(started: bool, observed: Option<PerformanceTiming>, closed: bool): (r: ProbeOutcome)
    ensures r.Rejected? <==> !started || !closed
    ensures r.Returned? ==> r.result == MeasuredTiming(observed)
  {
    if !started || !closed then Rejected else Returned(MeasuredTiming(observed))
  }

  /** A probe returns `null` exactly when its browser worked but the page did not load or report. */
  lemma NullOnlyFromPage(started: bool, observed: Option<PerformanceTiming>, closed: bool)
    ensures TestRender(started, observed, closed) == Returned(None) <==> started && closed && observed.None?
  {
  }

  /** The durations depend only on the distances between the events, not on the clock's origin. */
  lemma TimingIgnoresClockOrigin(p: PerformanceTiming, shift: int)
    ensures var q := PerformanceTiming(p.navigationStart + shift, p.domContentLoadedEventEnd + shift, p.loadEventEnd + shift);
            MeasuredTiming(Some(q)).value.domContentLoaded == MeasuredTiming(Some(p)).value.domContentLoaded
            && MeasuredTiming(Some(q)).value.loadEvent == MeasuredTiming(Some(p)).value.loadEvent
  {
  }

  /** Events in order give durations in order; an event before navigation start gives a negative duration. */
  lemma TimingOrder(p: PerformanceTiming)
    ensures p.domContentLoadedEventEnd <= p.loadEventEnd <==>
            MeasuredTiming(Some(p)).value.domContentLoaded <= MeasuredTiming(Some(p)).value.loadEvent
    ensures p.loadEventEnd < p.navigationStart <==> MeasuredTiming(Some(p)).value.loadEvent < 0
  {
  }
}
