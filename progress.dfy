/** The download progress filter (curl_progress_cb), over natural byte counts
    with integer division in place of floating point. */
module Progress {
  import opened Wrappers
  import opened Trace

  /** The slice [start, finish] of the overall progress that one download owns
      (cb_data's start_range and finish_range). */
  datatype Range = Range(start: int, finish: int)

  predicate ValidRange(r: Range) {
    0 <= r.start <= r.finish
  }

  /** One call from the transport: bytes expected in total and bytes so far. */
  datatype Tick = Tick(total: nat, now: nat)

  /** The download percentage `p`; 0 while the total is unknown. */
  function Percent(t: Tick): int {
    if t.total != 0 then t.now * 100 / t.total else 0
  }

  /** The value handed to the progress callback: `now / total` of the way from
      `start` to `finish`. */
  function Interpolate(r: Range, t: Tick): int
    requires ValidRange(r) && t.total >= 1
  {
    r.start + t.now * (r.finish - r.start) / t.total
  }

  /** The filter's stored percentage after a call, and the value it reports. */
  datatype Step = Step(prev: int, report: Option<int>)

  /** One call of the filter: a percentage equal to the stored one is dropped;
      otherwise it is stored, and reported unless the total is still unknown. */
  function CurlStep(prev: int, r: Range, t: Tick): Step
    requires ValidRange(r)
  {
    var p := Percent(t);
    if p == prev then Step(prev, None)
    else if t.total < 1 then Step(p, None)
    else Step(p, Some(Interpolate(r, t)))
  }

  datatype Run = Run(prev: int, events: seq<Event>)

  /** The stored percentage and the callback invocations after the first `n`
      calls of one download. */
  function FilterUpTo(prev: int, r: Range, ticks: seq<Tick>, n: nat): Run
    requires ValidRange(r) && n <= |ticks|
  {
    if n == 0 then Run(prev, [])
    else
      var run := FilterUpTo(prev, r, ticks, n - 1);
      var s := CurlStep(run.prev, r, ticks[n - 1]);
      Run(s.prev, run.events + if s.report.Some? then [Progress(s.report.value)] else [])
  }

  /** A well-behaved transport: once the total is known it does not change,
      and the byte count never decreases nor exceeds the total. */
  predicate SaneTicks(ticks: seq<Tick>) {
    && (forall i :: 0 <= i < |ticks| && ticks[i].total >= 1 ==> ticks[i].now <= ticks[i].total)
    && (forall i, j :: 0 <= i < j < |ticks| && ticks[i].total >= 1 && ticks[j].total >= 1 ==>
          ticks[i].total == ticks[j].total && ticks[i].now <= ticks[j].now)
  }

  lemma MulNonneg(x: int, t: int)
    requires t > 0
    ensures x >= 0 ==> t * x >= 0
  {
  }

  /** A quotient below m + 1 when the dividend is below t * (m + 1). */
  lemma DivLe(a: int, t: int, m: int)
    requires t > 0 && a < t * (m + 1)
    ensures a / t <= m
  {
    var q := a / t;
    assert t * q <= a;
    assert t * (q - m - 1) == t * q - t * (m + 1);
    MulNonneg(q - m - 1, t);
  }

  lemma DivMono(a: int, b: int, t: int)
    requires 0 <= a <= b && 0 < t
    ensures a / t <= b / t
  {
    var qb := b / t;
    assert b - t * qb < t;
    assert t * (qb + 1) == t * qb + t;
    DivLe(a, t, qb);
  }

  lemma MulMono(a: int, b: int, w: int)
    requires a <= b && 0 <= w
    ensures a * w <= b * w
  {
    assert b * w - a * w == (b - a) * w;
    MulNonneg(b - a, w + 1);
    assert (b - a) * (w + 1) == (b - a) * w + (b - a);
    if w > 0 {
      MulNonneg(b - a, w);
    }
  }

  /** The reported value stays inside the download's slice. */
  lemma InterpolateWithin(r: Range, t: Tick)
    requires ValidRange(r) && 1 <= t.total && t.now <= t.total
    ensures r.start <= Interpolate(r, t) <= r.finish
  {
    var w, n, d := r.finish - r.start, t.now, t.total;
    var x := n * w;
    MulMono(n, d, w);
    assert x <= d * w;
    assert d * (w + 1) == d * w + d;
    DivLe(x, d, w);
    MulNonneg(w, n + 1);
    assert (n + 1) * w == x + w;
  }

  /** More bytes of the same total never report a smaller value. */
  lemma InterpolateMono(r: Range, a: Tick, b: Tick)
    requires ValidRange(r) && 1 <= a.total && a.total == b.total && a.now <= b.now
    ensures Interpolate(r, a) <= Interpolate(r, b)
  {
    var w := r.finish - r.start;
    var x, y := a.now * w, b.now * w;
    MulMono(a.now, b.now, w);
    MulNonneg(w, a.now + 1);
    assert (a.now + 1) * w == x + w;
    DivMono(x, y, a.total);
  }

  /** A report is made only for a known total and a percentage different from
      the stored one, which the call then stores. */
  lemma CurlStepSuppressesRepeats(prev: int, r: Range, t: Tick)
    requires ValidRange(r)
    ensures var s := CurlStep(prev, r, t);
      && s.prev == Percent(t)
      && (s.report.Some? <==> Percent(t) != prev && t.total >= 1)
      && (s.report.Some? && t.now <= t.total ==> r.start <= s.report.value <= r.finish)
  {
    if t.total >= 1 && t.now <= t.total {
      InterpolateWithin(r, t);
    }
  }

  /** Over a well-behaved download the reported values never decrease and stay
      in the slice; the last one reported comes from one of the calls made. */
  lemma {:induction false} FilterUpToSane(prev: int, r: Range, ticks: seq<Tick>, n: nat)
    requires ValidRange(r) && SaneTicks(ticks) && n <= |ticks|
    ensures var vs := Progresses(FilterUpTo(prev, r, ticks, n).events);
      && NonDecreasing(vs) && Within(vs, r.start, r.finish)
      && (vs != [] ==> exists a :: 0 <= a < n && ticks[a].total >= 1 && vs[|vs| - 1] == Interpolate(r, ticks[a]))
  {
    if n > 0 {
      FilterUpToSane(prev, r, ticks, n - 1);
      var run := FilterUpTo(prev, r, ticks, n - 1);
      var s := CurlStep(run.prev, r, ticks[n - 1]);
      var vs := Progresses(run.events);
      if s.report.Some? {
        var v := s.report.value;
        ProgressesAppend(run.events, [Progress(v)]);
        ProgressesSingle(Progress(v));
        ReportStep(r, ticks, n, vs, v);
        assert Progresses(FilterUpTo(prev, r, ticks, n).events) == vs + [v];
      } else {
        assert FilterUpTo(prev, r, ticks, n).events == run.events;
      }
    }
  }

  /** The filter's step when call n-1 reports `v`, over the values reported
      before it. */
  lemma ReportStep(r: Range, ticks: seq<Tick>, n: nat, vs: seq<int>, v: int)
    requires ValidRange(r) && SaneTicks(ticks) && 0 < n <= |ticks| && ticks[n - 1].total >= 1
    requires v == Interpolate(r, ticks[n - 1])
    requires NonDecreasing(vs) && Within(vs, r.start, r.finish)
    requires vs != [] ==> exists a :: 0 <= a < n - 1 && ticks[a].total >= 1 && vs[|vs| - 1] == Interpolate(r, ticks[a])
    ensures NonDecreasing(vs + [v]) && Within(vs + [v], r.start, r.finish)
    ensures exists a :: 0 <= a < n && ticks[a].total >= 1 && (vs + [v])[|vs + [v]| - 1] == Interpolate(r, ticks[a])
  {
    var t := ticks[n - 1];
    InterpolateWithin(r, t);
    if vs != [] {
      var a :| 0 <= a < n - 1 && ticks[a].total >= 1 && vs[|vs| - 1] == Interpolate(r, ticks[a]);
      InterpolateMono(r, ticks[a], t);
    }
    AppendHigher(vs, v, r.start, r.finish);
    assert 0 <= n - 1 < n && t.total >= 1;
  }

  /** A value no lower than the last one, appended to a non-decreasing run
      inside [lo, hi], keeps it so. */
  lemma AppendHigher(vs: seq<int>, v: int, lo: int, hi: int)
    requires NonDecreasing(vs) && Within(vs, lo, hi) && lo <= v <= hi
    requires vs != [] ==> vs[|vs| - 1] <= v
    ensures NonDecreasing(vs + [v]) && Within(vs + [v], lo, hi) && (vs + [v])[|vs|] == v
  {
    NonDecreasingConcat(vs, [v], v);
    var ws := vs + [v];
    forall i | 0 <= i < |ws| ensures lo <= ws[i] <= hi {
      if i < |vs| {
        assert ws[i] == vs[i];
      }
    }
  }

  /** The filter drops repeated percentages, not repeated values: with a slice
      narrower than 100 two different percentages can report the same value
      twice in a row. */
  lemma RepeatedValueReported()
    ensures Progresses(FilterUpTo(-1, Range(0, 50), [Tick(200, 1), Tick(200, 2)], 2).events) == [0, 0]
  {
    var ticks := [Tick(200, 1), Tick(200, 2)];
    var r := Range(0, 50);
    assert CurlStep(-1, r, ticks[0]) == Step(0, Some(0));
    assert CurlStep(0, r, ticks[1]) == Step(1, Some(0));
    assert FilterUpTo(-1, r, ticks, 1) == Run(0, [Progress(0)]);
    var e := FilterUpTo(-1, r, ticks, 2).events;
    assert e == [Progress(0), Progress(0)];
    ProgressesAppend([Progress(0)], [Progress(0)]);
    ProgressesSingle(Progress(0));
  }
}
