/** What the statistics of a server are after a whole history of probes, `server_stat.rs`. */
module ScoreHistories {
  import opened Prelude
  import opened Samples
  import opened ServerStats

  function Run(s: Stat, probes: seq<Probe>): Stat {
    if probes == [] then s
    else
      var last := probes[|probes| - 1];
      Pushed(Run(s, probes[..|probes| - 1]), last.score, last.at)
  }

  predicate Monotone(probes: seq<Probe>) {
    forall i, j | 0 <= i < j < |probes| :: probes[i].at <= probes[j].at
  }

  /** The probes that are at most `window` old at time `now`. */
  function Recent(probes: seq<Probe>, now: int, window: nat): seq<Probe> {
    if probes == [] then []
    else
      var last := probes[|probes| - 1];
      Recent(probes[..|probes| - 1], now, window) + if now - last.at <= window then [last] else []
  }

  lemma {:induction false} RecentAll(probes: seq<Probe>, now: int, window: nat)
    requires forall i | 0 <= i < |probes| :: now - probes[i].at <= window
    ensures Recent(probes, now, window) == probes
  {
    if probes != [] {
      RecentAll(probes[..|probes| - 1], now, window);
    }
  }

  lemma {:induction false} RecentSkipsOld(probes: seq<Probe>, now: int, window: nat)
    requires probes != [] && now - probes[0].at > window
    ensures Recent(probes, now, window) == Recent(probes[1..], now, window)
  {
    if |probes| > 1 {
      var n := |probes| - 1;
      RecentSkipsOld(probes[..n], now, window);
      assert probes[..n][1..] == probes[1..][..n - 1];
    }
  }

  /** On a queue ordered in time, popping expired probes from the front drops all expired ones. */
  lemma {:induction false} DropIsRecent(queue: seq<Probe>, now: int, window: nat)
    requires Monotone(queue)
    ensures DropExpired(queue, now, window) == Recent(queue, now, window)
  {
    if queue != [] && now - queue[0].at > window {
      RecentSkipsOld(queue, now, window);
      DropIsRecent(queue[1..], now, window);
    } else {
      RecentAll(queue, now, window);
    }
  }

  lemma {:induction false} RecentNarrows(probes: seq<Probe>, before: int, now: int, window: nat)
    requires before <= now
    ensures Recent(Recent(probes, before, window), now, window) == Recent(probes, now, window)
  {
    if probes != [] {
      var n := |probes| - 1;
      RecentNarrows(probes[..n], before, now, window);
      var kept := Recent(probes[..n], before, window);
      assert (kept + [probes[n]])[..|kept|] == kept;
      assert kept + [] == kept;
    }
  }

  lemma {:induction false} RecentMonotone(probes: seq<Probe>, now: int, window: nat)
    requires Monotone(probes)
    ensures Monotone(Recent(probes, now, window))
    ensures probes != [] ==> forall p <- Recent(probes, now, window) :: p.at <= probes[|probes| - 1].at
  {
    if probes != [] {
      RecentMonotone(probes[..|probes| - 1], now, window);
    }
  }

  lemma RunSettings(s: Stat, probes: seq<Probe>)
    ensures Run(s, probes).window == s.window && Run(s, probes).maxRtt == s.maxRtt
    ensures Run(s, probes).userWeight == s.userWeight
  {
  }

  lemma RecentAppend(probes: seq<Probe>, last: Probe, now: int, window: nat)
    ensures Recent(probes + [last], now, window) ==
      Recent(probes, now, window) + if now - last.at <= window then [last] else []
  {
    assert (probes + [last])[..|probes|] == probes;
  }

  lemma LastIsRecent(probes: seq<Probe>, window: nat)
    requires probes != []
    ensures Recent(probes, probes[|probes| - 1].at, window) != []
  {
  }

  /** One more push turns the recent part of a history into the recent part of the longer one. */
  lemma QueueStep(queue: seq<Probe>, history: seq<Probe>, last: Probe, window: nat)
    requires Monotone(history + [last])
    requires queue == if history == [] then [] else Recent(history, history[|history| - 1].at, window)
    ensures DropExpired(queue + [last], last.at, window) == Recent(history + [last], last.at, window)
  {
    hide Recent;
    if history == [] {
      assert history + [last] == queue + [last];
    } else {
      var t := history[|history| - 1].at;
      assert (history + [last])[|history| - 1].at == t && (history + [last])[|history|] == last;
      assert forall i | 0 <= i < |history| :: (history + [last])[i] == history[i];
      RecentMonotone(history, t, window);
      RecentAppend(queue, last, last.at, window);
      RecentNarrows(history, t, last.at, window);
      RecentAppend(history, last, last.at, window);
    }
    DropIsRecent(queue + [last], last.at, window);
  }

  /** With a monotone clock, the queue after every push is the whole history cut to the window. */
  lemma {:induction false} QueueIsRecent(s: Stat, probes: seq<Probe>)
    requires s.queue == [] && probes != [] && Monotone(probes)
    ensures Run(s, probes).queue == Recent(probes, probes[|probes| - 1].at, s.window) != []
  {
    hide Pushed, Recent, DropExpired;
    var n := |probes| - 1;
    var last := probes[n];
    assert probes[..n] + [last] == probes;
    if n > 0 {
      QueueIsRecent(s, probes[..n]);
    }
    RunSettings(s, probes[..n]);
    PushedQueue(Run(s, probes[..n]), last.score, last.at);
    QueueStep(Run(s, probes[..n]).queue, probes[..n], last, s.window);
    LastIsRecent(probes, s.window);
  }

  /** What one recalculation makes of the queue. */
  ghost predicate Describes(after: Stat, before: Stat, queue: seq<Probe>)
    requires queue != []
  {
    var lat := Latencies(queue);
    && after.failRate == ErrorCount(queue) as real / |queue| as real
    && (lat == [] ==> after.rtt == before.rtt)
    && (lat != [] ==> BetweenMiddles(Sort(lat), after.rtt) == MiddleFits(Sort(lat)))
    && (lat != [] && MiddleFits(Sort(lat)) ==> SplitsInHalf(lat, after.rtt))
    && (|lat| <= 1 ==> after.variance == before.variance && after.mean == before.mean)
    && (|lat| > 1 ==> (after.variance == Variance(lat) <==> Sum(lat) <= U32_MAX))
    && (|lat| > 1 ==> (after.mean == Mean(lat) <==> Sum(lat) <= U32_MAX))
  }

  lemma RecalculatedDescribes(s: Stat)
    requires s.queue != []
    ensures Describes(Recalculated(s), s, s.queue)
  {
    hide MiddleFits, SplitsInHalf, BetweenMiddles, IsSorted, Mean, Variance, ComputedVariance, ComputedMean, Median,
      Sum, ErrorCount, Latencies, Sort;
    var lat := Latencies(s.queue);
    if lat != [] {
      SortSorts(lat);
      MedianBetweenMiddles(Sort(lat));
      if MiddleFits(Sort(lat)) {
        MedianSplitsInHalf(lat);
      }
    }
    if |lat| > 1 {
      SortKeepsSpread(lat);
      ComputedVarianceExact(Sort(lat));
      ComputedMeanExact(lat);
    }
  }

  /** After every push: the failure rate is the error fraction of the recent history; the round-trip time
      halves its latencies when the middle ones add up in 32 bits; the spread is their sample variance
      exactly when all of them add up in 32 bits; and with too few latencies the old figures stay. */
  lemma FiguresDescribeHistory(s: Stat, probes: seq<Probe>)
    requires s.queue == [] && probes != [] && Monotone(probes)
    ensures Recent(probes, probes[|probes| - 1].at, s.window) != []
    ensures Describes(Run(s, probes), Run(s, probes[..|probes| - 1]), Recent(probes, probes[|probes| - 1].at, s.window))
  {
    hide Recalculated, Recent, Describes, DropExpired;
    var n := |probes| - 1;
    var before, last := Run(s, probes[..n]), probes[n];
    QueueIsRecent(s, probes);
    PushedQueue(before, last.score, last.at);
    var updated := before.(queue := DropExpired(before.queue + [Probe(last.score, last.at)], last.at, before.window));
    RecalculatedDescribes(updated);
    DescribesSameBefore(Recalculated(updated), updated, before, updated.queue);
  }

  lemma DescribesSameBefore(after: Stat, before: Stat, other: Stat, queue: seq<Probe>)
    requires queue != [] && before.rtt == other.rtt && before.variance == other.variance && before.mean == other.mean
    ensures Describes(after, before, queue) == Describes(after, other, queue)
  {
  }

  // ------------------------------------------------------------------ when the terms stay in [0, 1]

  /** After every push, the latencies in the window add up in 32 bits. */
  predicate SumsFit(probes: seq<Probe>, window: nat) {
    forall m | 0 < m <= |probes| :: Sum(Latencies(Recent(probes[..m], probes[m - 1].at, window))) <= U32_MAX
  }

  /** After every push, as many latencies as the window holds would add up in 32 bits even if all of them
      were the largest. */
  predicate WindowsFit(probes: seq<Probe>, maxRtt: u32, window: nat) {
    forall m | 0 < m <= |probes| :: |Latencies(Recent(probes[..m], probes[m - 1].at, window))| * maxRtt <= U32_MAX
  }

  /** What the checkers push: times never go back and latencies do not exceed the probe time-out. */
  predicate IsHistory(probes: seq<Probe>, maxRtt: u32) {
    Monotone(probes) && ProbesAtMost(probes, maxRtt)
  }

  lemma PrefixOfHistory(probes: seq<Probe>, maxRtt: u32, window: nat, n: nat)
    requires n <= |probes| && IsHistory(probes, maxRtt)
    ensures IsHistory(probes[..n], maxRtt)
    ensures SumsFit(probes, window) ==> SumsFit(probes[..n], window)
  {
    hide Sum, Latencies, Recent;
    forall m | 0 < m <= n
      ensures probes[..n][..m] == probes[..m]
    {
    }
  }

  /** As long as the latencies in the window add up in 32 bits, each normalised term lies in [0, 1]. */
  lemma {:induction false} ReachableInRange(userWeight: real, maxRtt: u32, window: nat, probes: seq<Probe>)
    requires maxRtt > 0 && 0.0 <= userWeight <= 1.0 && IsHistory(probes, maxRtt) && SumsFit(probes, window)
    ensures InRange(Run(NewStat(userWeight, maxRtt, window), probes))
  {
    hide Pushed, MaxVariance, Sum, Recent;
    var start := NewStat(userWeight, maxRtt, window);
    RunSettings(start, probes);
    if probes == [] {
      MaxVarianceIs(maxRtt);
    } else {
      var m := |probes| - 1;
      PrefixOfHistory(probes, maxRtt, window, m);
      ReachableInRange(userWeight, maxRtt, window, probes[..m]);
      RunSettings(start, probes[..m]);
      QueueIsRecent(start, probes);
      assert probes[..m + 1] == probes;
      PushKeepsRange(Run(start, probes[..m]), probes[m].score, probes[m].at);
    }
  }

  /** The two histories have probes at the same times, and the same ones fail. */
  predicate SamePattern(a: seq<Probe>, b: seq<Probe>) {
    |a| == |b| && forall i | 0 <= i < |a| :: a[i].at == b[i].at && (a[i].score.Errored? <==> b[i].score.Errored?)
  }

  /** `b` has gone through the pattern of `a` up to some point. */
  predicate Follows(b: seq<Probe>, a: seq<Probe>) {
    |b| <= |a| && SamePattern(b, a[..|b|])
  }

  /** A latency in the window at `now`. */
  predicate Counted(p: Probe, now: int, window: nat) {
    p.score.Latency? && now - p.at <= window
  }

  lemma LatenciesAppend(queue: seq<Probe>, last: Probe)
    ensures Latencies(queue + [last]) == Latencies(queue) + if last.score.Latency? then [last.score.ms] else []
  {
    assert (queue + [last])[..|queue|] == queue;
  }

  lemma RecentLatencies(probes: seq<Probe>, now: int, window: nat)
    requires probes != []
    ensures var last := probes[|probes| - 1];
      Latencies(Recent(probes, now, window)) == Latencies(Recent(probes[..|probes| - 1], now, window)) +
        if Counted(last, now, window) then [last.score.ms] else []
  {
    var kept := Recent(probes[..|probes| - 1], now, window);
    LatenciesAppend(kept, probes[|probes| - 1]);
    assert kept + [] == kept;
    assert Latencies(kept) + [] == Latencies(kept);
  }

  lemma {:induction false} PatternCounts(a: seq<Probe>, b: seq<Probe>, now: int, window: nat)
    requires SamePattern(a, b)
    ensures |Latencies(Recent(a, now, window))| == |Latencies(Recent(b, now, window))|
  {
    if a != [] {
      var n := |a| - 1;
      PatternCounts(a[..n], b[..n], now, window);
      RecentLatencies(a, now, window);
      RecentLatencies(b, now, window);
    }
  }

  /** The probe that takes the place of the last one of `a`, and the latencies left for those before it. */
  function FillLast(a: seq<Probe>, now: int, window: nat, v: seq<u32>): (r: (seq<u32>, Probe))
    requires a != [] && |v| == |Latencies(Recent(a, now, window))|
    ensures |r.0| == |Latencies(Recent(a[..|a| - 1], now, window))|
    ensures v == r.0 + if Counted(r.1, now, window) then [r.1.score.ms] else []
    ensures !Counted(r.1, now, window) && r.1.score.Latency? ==> r.1.score.ms == 0
    ensures r.1.at == a[|a| - 1].at && (r.1.score.Errored? <==> a[|a| - 1].score.Errored?)
  {
    var last := a[|a| - 1];
    RecentLatencies(a, now, window);
    if Counted(last, now, window) then (v[..|v| - 1], Probe(Latency(v[|v| - 1]), last.at))
    else (v, if last.score.Errored? then last else Probe(Latency(0), last.at))
  }

  /** The pattern of `a` with the latencies `v` in the window at `now` and zeros before it. */
  function Fill(a: seq<Probe>, now: int, window: nat, v: seq<u32>): (b: seq<Probe>)
    requires |v| == |Latencies(Recent(a, now, window))|
    ensures SamePattern(b, a)
  {
    if a == [] then []
    else
      var r := FillLast(a, now, window, v);
      Fill(a[..|a| - 1], now, window, r.0) + [r.1]
  }

  lemma FillStep(a: seq<Probe>, now: int, window: nat, v: seq<u32>) returns (w: seq<u32>, last: Probe)
    requires a != [] && |v| == |Latencies(Recent(a, now, window))|
    ensures |w| == |Latencies(Recent(a[..|a| - 1], now, window))|
    ensures Fill(a, now, window, v) == Fill(a[..|a| - 1], now, window, w) + [last]
    ensures v == w + if Counted(last, now, window) then [last.score.ms] else []
    ensures !Counted(last, now, window) && last.score.Latency? ==> last.score.ms == 0
  {
    hide Latencies, Recent, FillLast;
    var r := FillLast(a, now, window, v);
    w, last := r.0, r.1;
  }

  lemma {:induction false} FillAtMost(a: seq<Probe>, now: int, window: nat, v: seq<u32>, top: u32)
    requires |v| == |Latencies(Recent(a, now, window))| && AtMost(v, top)
    ensures ProbesAtMost(Fill(a, now, window, v), top)
  {
    if a != [] {
      var w, last := FillStep(a, now, window, v);
      hide Fill, Latencies, Recent, AtMost;
      if Counted(last, now, window) {
        AtMostSnoc(w, last.score.ms, top);
      } else {
        assert w == v;
      }
      FillAtMost(a[..|a| - 1], now, window, w, top);
    }
  }

  lemma {:induction false} FillIs(a: seq<Probe>, now: int, window: nat, v: seq<u32>)
    requires |v| == |Latencies(Recent(a, now, window))|
    ensures Latencies(Recent(Fill(a, now, window, v), now, window)) == v
  {
    if a != [] {
      var w, last := FillStep(a, now, window, v);
      var b := Fill(a, now, window, v);
      FillIs(a[..|a| - 1], now, window, w);
      hide Fill, Latencies, Recent;
      assert b[..|b| - 1] == Fill(a[..|a| - 1], now, window, w);
      RecentLatencies(b, now, window);
    }
  }

  lemma FiguresAfterRun(s: Stat, probes: seq<Probe>)
    requires s.queue == [] && probes != [] && Monotone(probes)
    ensures var lat := Latencies(Recent(probes, probes[|probes| - 1].at, s.window));
      && (lat != [] ==> Run(s, probes).rtt == Median(Sort(lat)))
      && (|lat| > 1 ==> Run(s, probes).variance == ComputedVariance(lat))
  {
    hide Recent, DropExpired, Latencies, ComputedVariance, Sort, Median, ComputedMean;
    QueueIsRecent(s, probes);
    var lat := Latencies(Run(s, probes).queue);
    if |lat| > 1 {
      SortKeepsSpread(lat);
    }
  }

  lemma MoreThanOne(n: nat, top: u32)
    requires n * top > U32_MAX
    ensures n > 1
  {
  }

  /** A window that is too full for its pattern gets latencies that bring the spread out of range. */
  lemma OverflowingRun(userWeight: real, maxRtt: u32, window: nat, a: seq<Probe>) returns (b: seq<Probe>)
    requires maxRtt > 0 && a != [] && Monotone(a)
    requires |Latencies(Recent(a, a[|a| - 1].at, window))| * maxRtt > U32_MAX
    ensures SamePattern(b, a) && IsHistory(b, maxRtt)
    ensures !InRange(Run(NewStat(userWeight, maxRtt, window), b))
  {
    hide Recent, Latencies, ComputedVariance, Run, Fill, MaxVariance, Square, Sort, Median;
    var now := a[|a| - 1].at;
    var n := |Latencies(Recent(a, now, window))|;
    MoreThanOne(n, maxRtt);
    var v := OverflowWitness(n, maxRtt);
    FillIs(a, now, window, v);
    FillAtMost(a, now, window, v, maxRtt);
    b := Fill(a, now, window, v);
    FiguresAfterRun(NewStat(userWeight, maxRtt, window), b);
    RunSettings(NewStat(userWeight, maxRtt, window), b);
    MaxVarianceIs(maxRtt);
  }

  lemma WindowsOfFollower(a: seq<Probe>, b: seq<Probe>, maxRtt: u32, window: nat)
    requires Follows(b, a) && Monotone(a) && ProbesAtMost(b, maxRtt) && WindowsFit(a, maxRtt, window)
    ensures IsHistory(b, maxRtt) && SumsFit(b, window)
  {
    hide Sum, Latencies, Recent;
    forall m | 0 < m <= |b|
      ensures Sum(Latencies(Recent(b[..m], b[m - 1].at, window))) <= U32_MAX
    {
      var now := b[m - 1].at;
      assert now == a[m - 1].at;
      assert b[..m] == b[..m] && a[..|b|][..m] == a[..m];
      PatternCounts(b[..m], a[..m], now, window);
      RecentAtMost(b[..m], now, window, maxRtt);
      SumAtMost(Latencies(Recent(b[..m], now, window)), maxRtt);
    }
  }

  lemma {:induction false} RecentSelects(probes: seq<Probe>, now: int, window: nat)
    ensures forall p <- Recent(probes, now, window) :: p in probes
  {
    if probes != [] {
      RecentSelects(probes[..|probes| - 1], now, window);
    }
  }

  lemma RecentAtMost(probes: seq<Probe>, now: int, window: nat, top: u32)
    requires ProbesAtMost(probes, top)
    ensures AtMost(Latencies(Recent(probes, now, window)), top)
  {
    hide Recent, Latencies;
    var kept := Recent(probes, now, window);
    RecentSelects(probes, now, window);
    forall i | 0 <= i < |kept|
      ensures kept[i].score.Latency? ==> kept[i].score.ms <= top
    {
      assert kept[i] in probes;
    }
    AtMostByProbe(kept, top);
  }

  /** When the terms stay in [0, 1]: for given times and failures, every latency up to the time-out keeps them
      there exactly when no window holds more latencies than would add up in 32 bits if all timed out. */
  lemma ReachableInRangeIff(userWeight: real, maxRtt: u32, window: nat, a: seq<Probe>)
    requires maxRtt > 0 && 0.0 <= userWeight <= 1.0 && Monotone(a)
    ensures (forall b | Follows(b, a) && ProbesAtMost(b, maxRtt) ::
        InRange(Run(NewStat(userWeight, maxRtt, window), b)))
      <==> WindowsFit(a, maxRtt, window)
  {
    hide Run, Sum, Latencies, Recent, ProbesAtMost, InRange;
    if WindowsFit(a, maxRtt, window) {
      forall b | Follows(b, a) && ProbesAtMost(b, maxRtt)
        ensures InRange(Run(NewStat(userWeight, maxRtt, window), b))
      {
        WindowsOfFollower(a, b, maxRtt, window);
        ReachableInRange(userWeight, maxRtt, window, b);
      }
    } else {
      var m :| 0 < m <= |a| && |Latencies(Recent(a[..m], a[m - 1].at, window))| * maxRtt > U32_MAX;
      var b := OverflowingRun(userWeight, maxRtt, window, a[..m]);
      assert Follows(b, a);
    }
  }

  lemma TwoLatencies(x: u32, y: u32, now: int)
    ensures Latencies([Probe(Latency(x), now), Probe(Latency(y), now)]) == [x, y]
  {
    var p, q := Probe(Latency(x), now), Probe(Latency(y), now);
    LatenciesAppend([], p);
    LatenciesAppend([p], q);
    assert [p, q] == [p] + [q] && [p] == [] + [p];
  }

  /** The shortest failing history: two latencies of `u32::MAX` in one window. */
  lemma WrapAroundBreaksBounds(userWeight: real, window: nat, now: int)
    ensures var top := Probe(Latency(U32_MAX), now);
      var s := Run(NewStat(userWeight, U32_MAX, window), [top, top]);
      IsHistory([top, top], U32_MAX) && s.variance > MaxVariance(U32_MAX) && s.rtt == U32_MAX / 2
  {
    var top := Probe(Latency(U32_MAX), now);
    var start := NewStat(userWeight, U32_MAX, window);
    assert start.queue == [] && start.window == window && IsHistory([top, top], U32_MAX);
    assert forall i | 0 <= i < 2 :: now - [top, top][i].at <= window;
    assert Monotone([top, top]);
    hide *;
    TwoLargest();
    MaxVarianceIs(U32_MAX);
    TwoLatencies(U32_MAX, U32_MAX, now);
    RecentAll([top, top], now, window);
    FiguresAfterRun(start, [top, top]);
  }

  // ------------------------------------------------------------------ the worst history

  /** Probes with the latencies `v` at time 0. */
  function Burst(v: seq<u32>): (probes: seq<Probe>)
    ensures |probes| == |v| && forall i | 0 <= i < |v| :: probes[i] == Probe(Latency(v[i]), 0)
  {
    seq(|v|, i requires 0 <= i < |v| => Probe(Latency(v[i]), 0))
  }

  lemma {:induction false} BurstLatencies(v: seq<u32>)
    ensures Latencies(Burst(v)) == v
  {
    if v != [] {
      var n := |v| - 1;
      BurstLatencies(v[..n]);
      assert Burst(v) == Burst(v[..n]) + [Probe(Latency(v[n]), 0)];
      LatenciesAppend(Burst(v[..n]), Probe(Latency(v[n]), 0));
    }
  }

  /** The latencies `v`; then, in a window of its own, the largest latency; then a failure alone. */
  function WorstHistory(v: seq<u32>, top: u32, window: nat): seq<Probe> {
    Burst(v) + [Probe(Latency(top), window + 1)] + [Probe(Errored, 2 * window + 2)]
  }

  lemma {:induction false} RecentNone(probes: seq<Probe>, now: int, window: nat)
    requires forall i | 0 <= i < |probes| :: now - probes[i].at > window
    ensures Recent(probes, now, window) == []
  {
    if probes != [] {
      RecentNone(probes[..|probes| - 1], now, window);
    }
  }

  lemma SingleLatency(p: Probe)
    ensures Latencies([p]) == if p.score.Latency? then [p.score.ms] else []
    ensures ErrorCount([p]) == if p.score.Latency? then 0 else 1
  {
    LatenciesAppend([], p);
    assert [] + [p] == [p] && [p][..0] == [];
  }

  /** What a probe that is alone in its window makes of the figures. */
  predicate Alone(after: Stat, before: Stat, last: Probe) {
    && after.variance == before.variance
    && after.rtt == (if last.score.Latency? then last.score.ms else before.rtt)
    && after.failRate == (if last.score.Latency? then 0.0 else 1.0)
  }

  lemma DescribesAlone(after: Stat, before: Stat, last: Probe)
    requires Describes(after, before, [last])
    requires last.score.Latency? ==> after.rtt == Median(Sort([last.score.ms]))
    ensures Alone(after, before, last)
  {
    SingleLatency(last);
    hide Latencies, ErrorCount;
    assert last.score.Latency? ==> Sort([last.score.ms]) == [last.score.ms];
    assert 1 as real / 1 as real == 1.0 && 0 as real / 1 as real == 0.0;
  }

  /** A probe after the window of all earlier ones is alone in its window. */
  lemma LateProbe(s: Stat, probes: seq<Probe>, last: Probe)
    requires s.queue == [] && Monotone(probes) && forall i | 0 <= i < |probes| :: last.at - probes[i].at > s.window
    ensures Monotone(probes + [last]) && Recent(probes + [last], last.at, s.window) == [last]
    ensures Alone(Run(s, probes + [last]), Run(s, probes), last)
  {
    hide Describes, Run, Recent, Alone, Median, Sort, Latencies;
    var all := probes + [last];
    assert all[..|all| - 1] == probes;
    RecentNone(probes, last.at, s.window);
    RecentAppend(probes, last, last.at, s.window);
    assert [] + [last] == [last];
    FiguresDescribeHistory(s, all);
    FiguresAfterRun(s, all);
    SingleLatency(last);
    DescribesAlone(Run(s, all), Run(s, probes), last);
  }

  /** Round-trip time and failure rate end at their largest, and the spread is that of `v`. */
  lemma WorstFigures(s: Stat, v: seq<u32>)
    requires s.queue == [] && |v| > 1
    ensures var t := Run(s, WorstHistory(v, s.maxRtt, s.window));
      && t.rtt == s.maxRtt && t.failRate == 1.0 && t.variance == ComputedVariance(v)
      && t.maxRtt == s.maxRtt && t.userWeight == s.userWeight
  {
    var slow, failed := Probe(Latency(s.maxRtt), s.window + 1), Probe(Errored, 2 * s.window + 2);
    hide Run, Recent, ComputedVariance, Latencies, Sort, Median;
    RunSettings(s, WorstHistory(v, s.maxRtt, s.window));
    BurstLatencies(v);
    RecentAll(Burst(v), 0, s.window);
    FiguresAfterRun(s, Burst(v));
    LateProbe(s, Burst(v), slow);
    LateProbe(s, Burst(v) + [slow], failed);
  }

  /** After every push, the window holds at most `n` latencies. */
  predicate WindowsHold(probes: seq<Probe>, n: nat, window: nat) {
    forall m | 0 < m <= |probes| :: |Latencies(Recent(probes[..m], probes[m - 1].at, window))| <= n
  }

  lemma WindowsSnoc(probes: seq<Probe>, last: Probe, n: nat, window: nat)
    ensures var lat := Latencies(Recent(probes + [last], last.at, window));
      && (SumsFit(probes, window) && Sum(lat) <= U32_MAX ==> SumsFit(probes + [last], window))
      && (WindowsHold(probes, n, window) && |lat| <= n ==> WindowsHold(probes + [last], n, window))
  {
    hide Sum, Latencies, Recent;
    var all := probes + [last];
    assert all[..|all|] == all;
    assert forall m | 0 < m <= |probes| :: all[..m] == probes[..m];
  }

  lemma SmallTotals(x: u32)
    ensures Sum([]) == 0 && Sum([x]) == x && Sum([0, x]) == x
  {
    assert [x][..0] == [] && [0, x][..1] == [0] && [0][..0] == [];
  }

  lemma WorstIsHistory(v: seq<u32>, top: u32, window: nat, n: nat)
    requires AtMost(v, top)
    ensures var probes := WorstHistory(v, top, window);
      && IsHistory(probes, top)
      && (SumsFit(Burst(v), window) ==> SumsFit(probes, window))
      && (n > 0 && WindowsHold(Burst(v), n, window) ==> WindowsHold(probes, n, window))
  {
    var slow, failed := Probe(Latency(top), window + 1), Probe(Errored, 2 * window + 2);
    var s := NewStat(0.0, top, window);
    hide Run, Alone, Recent, Latencies, Sum;
    LateProbe(s, Burst(v), slow);
    LateProbe(s, Burst(v) + [slow], failed);
    SingleLatency(slow);
    SingleLatency(failed);
    SmallTotals(top);
    WindowsSnoc(Burst(v), slow, n, window);
    WindowsSnoc(Burst(v) + [slow], failed, n, window);
  }

  /** The score published after a history. */
  function ScoreAfter(userWeight: real, maxRtt: u32, window: nat, probes: seq<Probe>): u32
    requires maxRtt > 0
  {
    RunSettings(NewStat(userWeight, maxRtt, window), probes);
    CastScore(Run(NewStat(userWeight, maxRtt, window), probes))
  }

  /** The two extreme latencies have the largest spread. */
  lemma ExtremePair(top: u32)
    ensures ComputedVariance([0, top]) == MaxVariance(top)
  {
    var v: seq<u32> := [0, top];
    assert v[..1] == [0] && [0][..0] == [];
    assert WrappingSum([0]) == 0 && WrappingSum(v) == top;
    var m := top as real / 2.0;
    assert ComputedMean(v) == m;
    assert Deviation([0], m) == Square(0.0 - m);
    assert Deviation(v, m) == Square(0.0 - m) + Square(top as real - m);
  }

  lemma PairFits(top: u32, window: nat)
    ensures SumsFit(Burst([0, top]), window)
  {
    var p, q := Probe(Latency(0), 0), Probe(Latency(top), 0);
    SmallTotals(top);
    SmallTotals(0);
    TwoLatencies(0, top, 0);
    SingleLatency(p);
    assert [] + [p] == [p] && [p] + [q] == [p, q] && Burst([0, top]) == [p, q];
    hide Sum, Latencies, Recent;
    RecentAll([p], 0, window);
    RecentAll([p, q], 0, window);
    WindowsSnoc([], p, 0, window);
    WindowsSnoc([p], q, 0, window);
  }

  lemma WorstSaturates(s: Stat)
    requires s.maxRtt > 0 && s.rtt == s.maxRtt && s.failRate == 1.0 && s.variance == MaxVariance(s.maxRtt)
    requires Product(U32_MAX as real, Weight(s)) <= 10000.0
    ensures CastScore(s) == U32_MAX
  {
    MaxVarianceIs(s.maxRtt);
    SelfQuotient(s.maxRtt as real);
    SquareOrder(Needed(s, U32_MAX), 1.0, MaxVariance(s.maxRtt));
    assert Product(Square(1.0), MaxVariance(s.maxRtt)) == MaxVariance(s.maxRtt);
    assert Reaches(s, U32_MAX);
  }

  /** With weight `w` no history saturates the score exactly when `10000 / w` is below `u32::MAX`. */
  lemma SaturationThreshold(w: real, maxRtt: u32, window: nat)
    requires 0.0 <= w <= 1.0 && maxRtt > 0
    ensures (forall probes | IsHistory(probes, maxRtt) && SumsFit(probes, window) ::
        ScoreAfter(w, maxRtt, window, probes) < U32_MAX)
      <==> Product(U32_MAX as real, Weight(NewStat(w, maxRtt, window))) > 10000.0
  {
    var start := NewStat(w, maxRtt, window);
    hide Run, CastScore, Product, IsHistory, SumsFit, MaxVariance, ComputedVariance, WorstHistory;
    if Product(U32_MAX as real, Weight(start)) > 10000.0 {
      forall probes | IsHistory(probes, maxRtt) && SumsFit(probes, window)
        ensures ScoreAfter(w, maxRtt, window, probes) < U32_MAX
      {
        ReachableInRange(w, maxRtt, window, probes);
        RunSettings(start, probes);
        ScoreBounded(Run(start, probes));
      }
    } else {
      var worst := WorstHistory([0, maxRtt], maxRtt, window);
      PairFits(maxRtt, window);
      WorstIsHistory([0, maxRtt], maxRtt, window, 0);
      WorstFigures(start, [0, maxRtt]);
      ExtremePair(maxRtt);
      WorstSaturates(Run(start, worst));
      assert ScoreAfter(w, maxRtt, window, worst) == U32_MAX;
    }
  }

  // ------------------------------------------------------------------ when the real score stays in its range

  /** The real score is at most `10000 / weight`, told without a square root. */
  predicate WithinTop(s: Stat)
    requires s.maxRtt > 0
  {
    var room := 5.0 - s.rtt as real / s.maxRtt as real - 3.0 * s.failRate;
    room >= 0.0 && s.variance <= Product(Square(room), MaxVariance(s.maxRtt))
  }

  lemma WithinTopIs(s: Stat, nstdev: real)
    requires s.maxRtt > 0 && IsNormalisedStdev(s, nstdev)
    ensures WithinTop(s) <==> Product(RealScore(s, nstdev), Weight(s)) <= 10000.0
  {
    var terms := s.rtt as real / s.maxRtt as real + 3.0 * s.failRate + nstdev;
    var room := 5.0 - s.rtt as real / s.maxRtt as real - 3.0 * s.failRate;
    MaxVarianceIs(s.maxRtt);
    RealScoreIs(s, nstdev);
    MeanTimes(terms * 2000.0, Weight(s));
    Commute(Weight(s), RealScore(s, nstdev));
    hide RealScore, Weight, MaxVariance, Square, Product;
    assert Product(RealScore(s, nstdev), Weight(s)) <= 10000.0 <==> nstdev <= room;
    if room >= 0.0 {
      SquareOrder(nstdev, room, MaxVariance(s.maxRtt));
      assert Product(Square(room), MaxVariance(s.maxRtt)) >= 0.0 by {
        SquareNonNegative(room);
        ScaleNonNegative(Square(room), MaxVariance(s.maxRtt));
      }
      assert Product(Square(0.0), MaxVariance(s.maxRtt)) == 0.0 by {
        SquareOfZero();
        ZeroTimes(MaxVariance(s.maxRtt));
      }
    }
  }

  lemma ZeroTimes(x: real)
    ensures Product(0.0, x) == 0.0
  {
  }

  predicate WithinTopAfter(userWeight: real, maxRtt: u32, window: nat, probes: seq<Probe>)
    requires maxRtt > 0
  {
    RunSettings(NewStat(userWeight, maxRtt, window), probes);
    WithinTop(Run(NewStat(userWeight, maxRtt, window), probes))
  }

  lemma InRangeWithinTop(s: Stat)
    requires InRange(s)
    ensures WithinTop(s)
  {
    MaxVarianceIs(s.maxRtt);
    DivideBound(s.rtt as real, s.maxRtt as real, 1.0);
    var room := 5.0 - s.rtt as real / s.maxRtt as real - 3.0 * s.failRate;
    SquareOrder(1.0, room, MaxVariance(s.maxRtt));
    assert Product(Square(1.0), MaxVariance(s.maxRtt)) == MaxVariance(s.maxRtt);
  }

  lemma HeldSumsFit(probes: seq<Probe>, n: nat, maxRtt: u32, window: nat)
    requires ProbesAtMost(probes, maxRtt) && WindowsHold(probes, n, window) && n * maxRtt <= U32_MAX
    ensures SumsFit(probes, window)
  {
    hide Sum, Latencies, Recent;
    forall m | 0 < m <= |probes|
      ensures Sum(Latencies(Recent(probes[..m], probes[m - 1].at, window))) <= U32_MAX
    {
      var lat := Latencies(Recent(probes[..m], probes[m - 1].at, window));
      RecentAtMost(probes[..m], probes[m - 1].at, window, maxRtt);
      SumAtMost(lat, maxRtt);
      assert |lat| * maxRtt <= n * maxRtt;
    }
  }

  lemma {:induction false} RecentIsShorter(probes: seq<Probe>, now: int, window: nat)
    ensures |Recent(probes, now, window)| <= |probes|
  {
    if probes != [] {
      RecentIsShorter(probes[..|probes| - 1], now, window);
    }
  }

  lemma ShortHolds(probes: seq<Probe>, window: nat)
    ensures WindowsHold(probes, |probes|, window)
  {
    forall m | 0 < m <= |probes|
      ensures |Latencies(Recent(probes[..m], probes[m - 1].at, window))| <= |probes|
    {
      RecentIsShorter(probes[..m], probes[m - 1].at, window);
      CountsAddUp(Recent(probes[..m], probes[m - 1].at, window));
    }
  }

  /** When every window holds at most `n` latencies, the real score never exceeds 10000 / weight in any
      history exactly when `n` largest latencies add up in 32 bits. */
  lemma RealScoreBoundedIff(w: real, maxRtt: u32, window: nat, n: nat)
    requires 0.0 <= w <= 1.0 && maxRtt > 0 && n > 1
    ensures (forall probes | IsHistory(probes, maxRtt) && WindowsHold(probes, n, window) ::
        WithinTopAfter(w, maxRtt, window, probes))
      <==> n * maxRtt <= U32_MAX
  {
    var start := NewStat(w, maxRtt, window);
    hide Run, WithinTop, SumsFit, MaxVariance, ComputedVariance, WorstHistory, WindowsHold, Burst;
    if n * maxRtt <= U32_MAX {
      forall probes | IsHistory(probes, maxRtt) && WindowsHold(probes, n, window)
        ensures WithinTopAfter(w, maxRtt, window, probes)
      {
        HeldSumsFit(probes, n, maxRtt, window);
        ReachableInRange(w, maxRtt, window, probes);
        InRangeWithinTop(Run(start, probes));
      }
    } else {
      var v := OverflowWitness(n, maxRtt);
      ShortHolds(Burst(v), window);
      WorstIsHistory(v, maxRtt, window, n);
      WorstFigures(start, v);
      WorstNotWithin(Run(start, WorstHistory(v, maxRtt, window)));
    }
  }

  lemma WorstNotWithin(s: Stat)
    requires s.maxRtt > 0 && s.rtt == s.maxRtt && s.failRate == 1.0 && s.variance > Square(s.maxRtt as real) / 2.0
    ensures !WithinTop(s)
  {
    MaxVarianceIs(s.maxRtt);
    SelfQuotient(s.maxRtt as real);
    assert Product(Square(1.0), MaxVariance(s.maxRtt)) == MaxVariance(s.maxRtt);
  }
}
