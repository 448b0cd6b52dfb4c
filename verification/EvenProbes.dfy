/** Histories of probes at equal distances, as a checker's timer makes them, and the worst of them. */
module EvenProbes {
  import opened Prelude
  import opened Samples
  import opened ServerStats
  import opened ScoreHistories

  function Times(k: nat, step: nat): nat {
    k * step
  }

  lemma NextTime(k: nat, step: nat)
    ensures Times(0, step) == 0 && Times(1, step) == step && Times(k + 1, step) == Times(k, step) + step
  {
  }

  lemma {:induction false} TimesGrow(i: nat, j: nat, step: nat)
    requires i <= j
    ensures Times(i, step) <= Times(j, step)
    decreases j
  {
    if i < j {
      TimesGrow(i, j - 1, step);
      NextTime(j - 1, step);
    }
  }

  /** One probe every `step`, the first at `from`. */
  predicate Even(probes: seq<Probe>, from: int, step: nat) {
    forall k | 0 <= k < |probes| :: probes[k].at == from + Times(k, step)
  }

  /** Latency zero, then the largest, then failures. */
  function EvenProbe(top: u32, from: int, step: nat, k: nat): Probe {
    Probe(if k == 0 then Latency(0) else if k == 1 then Latency(top) else Errored, from + Times(k, step))
  }

  function EvenHistory(top: u32, from: int, step: nat, n: nat): (probes: seq<Probe>)
    ensures |probes| == n && forall k | 0 <= k < n :: probes[k] == EvenProbe(top, from, step, k)
  {
    if n == 0 then [] else EvenHistory(top, from, step, n - 1) + [EvenProbe(top, from, step, n - 1)]
  }

  /** How many such probes it takes until both latencies have left the window. */
  function Enough(window: nat, step: nat): (n: nat)
    requires step > 0
    ensures n >= 3 && Times(n - 3, step) <= window < Times(n - 2, step)
  {
    NextTime(window / step, step);
    window / step + 3
  }

  lemma EvenPrefix(top: u32, from: int, step: nat, n: nat)
    requires n > 0
    ensures EvenHistory(top, from, step, n)[..n - 1] == EvenHistory(top, from, step, n - 1)
    ensures EvenHistory(top, from, step, n)[n - 1].at == from + Times(n - 1, step)
  {
  }

  lemma EvenIsHistory(top: u32, from: int, step: nat, n: nat)
    ensures var probes := EvenHistory(top, from, step, n); IsHistory(probes, top) && Even(probes, from, step)
  {
    forall i, j | 0 <= i < j < n
      ensures Times(i, step) <= Times(j, step)
    {
      TimesGrow(i, j, step);
    }
  }

  /** The latencies in the window at `now`. */
  function Left(top: u32, from: int, step: nat, n: nat, now: int, window: nat): seq<u32> {
    (if n >= 1 && now - from <= window then [0] else []) +
    (if n >= 2 && now - from - step <= window then [top] else [])
  }

  /** What the probe number `n - 1` adds to them. */
  lemma LeftNext(top: u32, from: int, step: nat, n: nat, now: int, window: nat)
    requires n > 0
    ensures var last := EvenProbe(top, from, step, n - 1);
      Left(top, from, step, n, now, window) ==
        Left(top, from, step, n - 1, now, window) + if Counted(last, now, window) then [last.score.ms] else []
  {
    NextTime(0, step);
    hide Times;
  }

  lemma EvenNone(top: u32, from: int, step: nat, now: int, window: nat)
    ensures Latencies(Recent(EvenHistory(top, from, step, 0), now, window)) == Left(top, from, step, 0, now, window)
  {
  }

  lemma {:induction false} EvenLatencies(top: u32, from: int, step: nat, n: nat, now: int, window: nat)
    ensures Latencies(Recent(EvenHistory(top, from, step, n), now, window)) == Left(top, from, step, n, now, window)
  {
    hide *;
    if n == 0 {
      EvenNone(top, from, step, now, window);
    } else {
      EvenLatencies(top, from, step, n - 1, now, window);
      EvenPrefix(top, from, step, n);
      LeftNext(top, from, step, n, now, window);
      RecentLatencies(EvenHistory(top, from, step, n), now, window);
    }
  }

  lemma LeftFits(top: u32, from: int, step: nat, n: nat, now: int, window: nat)
    ensures Sum(Left(top, from, step, n, now, window)) <= U32_MAX
  {
    SmallTotals(top);
    SmallTotals(0);
    assert [] + [top] == [top] && [0] + [top] == [0, top] && [0] + [] == [0];
    hide Sum;
  }

  lemma EvenSumsFit(top: u32, from: int, step: nat, n: nat, window: nat)
    ensures SumsFit(EvenHistory(top, from, step, n), window)
  {
    var probes := EvenHistory(top, from, step, n);
    hide Latencies, Recent, Sum, Left;
    forall m | 0 < m <= n
      ensures Sum(Latencies(Recent(probes[..m], probes[m - 1].at, window))) <= U32_MAX
    {
      assert probes[..m] == EvenHistory(top, from, step, m);
      EvenLatencies(top, from, step, m, probes[m - 1].at, window);
      LeftFits(top, from, step, m, probes[m - 1].at, window);
    }
  }

  /** What the latest probe has done to the figures, `lat` being the latencies in the window. */
  predicate EvenStepped(before: Stat, after: Stat, lat: seq<u32>) {
    && (if lat == [] then after.rtt == before.rtt else after.rtt == Median(Sort(lat)))
    && (if |lat| > 1 then after.variance == ComputedVariance(lat) else after.variance == before.variance)
    && (lat == [] ==> after.failRate == 1.0)
  }

  lemma SteppedBy(before: Stat, after: Stat, queue: seq<Probe>)
    requires queue != [] && Describes(after, before, queue)
    requires var lat := Latencies(queue);
      && (lat != [] ==> after.rtt == Median(Sort(lat)))
      && (|lat| > 1 ==> after.variance == ComputedVariance(lat))
    ensures EvenStepped(before, after, Latencies(queue))
  {
    CountsAddUp(queue);
    SelfQuotient(|queue| as real);
    hide Latencies, ErrorCount, Median, Sort, ComputedVariance, SplitsInHalf, BetweenMiddles, MiddleFits, Variance,
      Mean,
      Sum;
  }

  lemma EvenStep(s: Stat, from: int, step: nat, n: nat)
    requires s.queue == [] && n > 0
    ensures EvenStepped(
      Run(s, EvenHistory(s.maxRtt, from, step, n - 1)), Run(s, EvenHistory(s.maxRtt, from, step, n)),
      Left(s.maxRtt, from, step, n, from + Times(n - 1, step), s.window))
  {
    hide Run, Recent, Latencies, EvenHistory, EvenStepped, Describes, Times, Left, Median, Sort, ComputedVariance;
    var probes, now := EvenHistory(s.maxRtt, from, step, n), from + Times(n - 1, step);
    EvenPrefix(s.maxRtt, from, step, n);
    EvenIsHistory(s.maxRtt, from, step, n);
    EvenLatencies(s.maxRtt, from, step, n, now, s.window);
    assert Monotone(probes) && now == probes[|probes| - 1].at;
    FiguresAfterRun(s, probes);
    FiguresDescribeHistory(s, probes);
    SteppedBy(Run(s, EvenHistory(s.maxRtt, from, step, n - 1)), Run(s, probes), Recent(probes, now, s.window));
  }

  /** The latencies left after the second probe, and later on at most those. */
  lemma LeftAtPush(top: u32, from: int, step: nat, n: nat, window: nat)
    requires n >= 2 && step <= window
    ensures var lat := Left(top, from, step, n, from + Times(n - 1, step), window);
      (n == 2 ==> lat == [0, top]) && (|lat| > 1 ==> lat == [0, top])
  {
    NextTime(0, step);
    hide Times;
  }

  /** From the second probe on the spread is that of the two latencies. */
  lemma {:induction false} EvenSpread(s: Stat, from: int, step: nat, n: nat)
    requires s.queue == [] && n >= 2 && step <= s.window
    ensures Run(s, EvenHistory(s.maxRtt, from, step, n)).variance == MaxVariance(s.maxRtt)
  {
    hide Run, EvenHistory, ComputedVariance, MaxVariance, Median, Sort, Times, Left;
    LeftAtPush(s.maxRtt, from, step, n, s.window);
    EvenStep(s, from, step, n);
    ExtremePair(s.maxRtt);
    if n > 2 {
      EvenSpread(s, from, step, n - 1);
    }
  }

  lemma MedianOfOne(x: u32)
    ensures Median(Sort([x])) == x
  {
    assert [x][..0] == [] && Sort([x]) == [x];
  }

  /** Round-trip time, failure rate and spread are all at their largest. */
  predicate IsWorst(s: Stat, maxRtt: u32) {
    && s.maxRtt == maxRtt && s.rtt == maxRtt && s.failRate == 1.0 && s.variance == MaxVariance(maxRtt)
  }

  /** At the last probe but one only the largest latency is in the window, at the last one none. */
  lemma LeftAtEnd(top: u32, from: int, step: nat, window: nat)
    requires step > 0
    ensures var n := Enough(window, step);
      && Left(top, from, step, n - 1, from + Times(n - 2, step), window) == [top]
      && Left(top, from, step, n, from + Times(n - 1, step), window) == []
  {
    var n := Enough(window, step);
    NextTime(n - 3, step);
    NextTime(n - 2, step);
    hide Times, Enough;
  }

  lemma EvenEndsWorst(s: Stat, from: int, step: nat)
    requires s.queue == [] && 0 < step <= s.window
    ensures IsWorst(Run(s, EvenHistory(s.maxRtt, from, step, Enough(s.window, step))), s.maxRtt)
  {
    hide Run, EvenHistory, MaxVariance, Median, Sort, ComputedVariance, Times, Enough, Left;
    var n := Enough(s.window, step);
    RunSettings(s, EvenHistory(s.maxRtt, from, step, n));
    LeftAtEnd(s.maxRtt, from, step, s.window);
    EvenSpread(s, from, step, n);
    EvenStep(s, from, step, n - 1);
    EvenStep(s, from, step, n);
    MedianOfOne(s.maxRtt);
  }

  /** With weight `w` no history of evenly spaced probes, whatever their distance within the window, saturates the
      score exactly when `10000 / w` is below `u32::MAX`. */
  lemma EvenSaturationThreshold(w: real, maxRtt: u32, window: nat, from: int, step: nat)
    requires 0.0 <= w <= 1.0 && maxRtt > 0 && 0 < step <= window
    ensures (forall probes | IsHistory(probes, maxRtt) && SumsFit(probes, window) && Even(probes, from, step) ::
        ScoreAfter(w, maxRtt, window, probes) < U32_MAX)
      <==> Product(U32_MAX as real, Weight(NewStat(w, maxRtt, window))) > 10000.0
  {
    var start := NewStat(w, maxRtt, window);
    hide Run, CastScore, Product, IsHistory, SumsFit, MaxVariance, EvenHistory, Enough, Even;
    if Product(U32_MAX as real, Weight(start)) > 10000.0 {
      SaturationThreshold(w, maxRtt, window);
    } else {
      var n := Enough(window, step);
      var worst := EvenHistory(maxRtt, from, step, n);
      EvenIsHistory(maxRtt, from, step, n);
      EvenSumsFit(maxRtt, from, step, n, window);
      EvenEndsWorst(start, from, step);
      RunSettings(start, worst);
      WorstSaturates(Run(start, worst));
      assert ScoreAfter(w, maxRtt, window, worst) == U32_MAX;
    }
  }

  // ------------------------------------------------------------------ some worst history

  /** Every new server ends at its worst. */
  ghost predicate EndsWorst(probes: seq<Probe>, maxRtt: u32, window: nat) {
    forall w: real :: IsWorst(Run(NewStat(w, maxRtt, window), probes), maxRtt)
  }

  /** A history in which every server ends at its worst, evenly spaced if the window allows that. */
  lemma SomeWorst(maxRtt: u32, window: nat, from: int, step: nat) returns (probes: seq<Probe>)
    ensures probes != [] && IsHistory(probes, maxRtt) && SumsFit(probes, window)
    ensures EndsWorst(probes, maxRtt, window)
    ensures 0 < step <= window ==> Even(probes, from, step)
  {
    hide Run, IsHistory, SumsFit, MaxVariance, ComputedVariance, Even;
    if 0 < step <= window {
      var n := Enough(window, step);
      probes := EvenHistory(maxRtt, from, step, n);
      EvenIsHistory(maxRtt, from, step, n);
      EvenSumsFit(maxRtt, from, step, n, window);
    } else {
      probes := WorstHistory([0, maxRtt], maxRtt, window);
      PairFits(maxRtt, window);
      WorstIsHistory([0, maxRtt], maxRtt, window, 0);
      ExtremePair(maxRtt);
    }
    hide EvenHistory, WorstHistory, Enough;
    forall w: real
      ensures IsWorst(Run(NewStat(w, maxRtt, window), probes), maxRtt)
    {
      if 0 < step <= window {
        EvenEndsWorst(NewStat(w, maxRtt, window), from, step);
      } else {
        WorstFigures(NewStat(w, maxRtt, window), [0, maxRtt]);
      }
    }
  }
}
