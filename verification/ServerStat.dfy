/** Score keeping of one server: `server_stat.rs` and `server_data.rs`. Floating point is modelled by
    reals, and the standard deviation by its square. */
module ServerStats {
  import opened Prelude
  import opened Samples

  datatype Score = Latency(ms: u32) | Errored

  datatype Probe = Probe(score: Score, at: int)

  /** f32::EPSILON */
  const EPSILON: real := 1.0 / 8388608.0

  const SCORE_RTT_WEIGHT: real := 1.0
  const SCORE_FAIL_WEIGHT: real := 3.0
  const SCORE_STDEV_WEIGHT: real := 1.0

  /** `variance` is the square of `latency_stdev`. */
  datatype Stat = Stat(
    rtt: u32,
    maxRtt: u32,
    failRate: real,
    queue: seq<Probe>,
    variance: real,
    mean: real,
    userWeight: real,
    window: nat)

  /** Square of `max_latency_stdev`: the spread of the two samples `0` and `maxRtt`. */
  function MaxVariance(maxRtt: u32): real {
    var mrtt := maxRtt as real;
    var avg := (0.0 + mrtt) / 2.0;
    Square(0.0 - avg) + Square(mrtt - avg)
  }

  function NewStat(userWeight: real, maxRtt: u32, window: nat): Stat {
    Stat(maxRtt, maxRtt, 1.0, [], 0.0, 0.0, userWeight, window)
  }

  // ------------------------------------------------------------------ score

  function Weight(s: Stat): real {
    if s.userWeight >= EPSILON then s.userWeight else EPSILON
  }

  /** The score before the cast, for a normalised standard deviation `nstdev`. */
  function RealScore(s: Stat, nstdev: real): real
    requires s.maxRtt > 0
  {
    (s.rtt as real / s.maxRtt as real * SCORE_RTT_WEIGHT + s.failRate * SCORE_FAIL_WEIGHT + nstdev * SCORE_STDEV_WEIGHT)
    / (SCORE_RTT_WEIGHT + SCORE_FAIL_WEIGHT + SCORE_STDEV_WEIGHT)
    / Weight(s) * 10000.0
  }

  predicate IsNormalisedStdev(s: Stat, nstdev: real)
    requires s.maxRtt > 0
  {
    && nstdev >= 0.0
    && Product(Square(nstdev), MaxVariance(s.maxRtt)) == s.variance
  }

  /** How large the normalised standard deviation must be for the real score to reach `k`. */
  function Needed(s: Stat, k: nat): real
    requires s.maxRtt > 0
  {
    Product(k as real, Weight(s)) / 2000.0 - s.rtt as real / s.maxRtt as real - 3.0 * s.failRate
  }

  /** `k` is at most the real score, decided without a square root. */
  predicate Reaches(s: Stat, k: nat)
    requires s.maxRtt > 0
  {
    Needed(s, k) <= 0.0 || Product(Square(Needed(s, k)), MaxVariance(s.maxRtt)) <= s.variance
  }

  /** The largest `u32` not above `top` that the real score reaches. */
  function LargestReached(s: Stat, top: u32): (k: u32)
    requires s.maxRtt > 0
    ensures k <= top && (k > 0 ==> Reaches(s, k))
    ensures forall j | k < j <= top :: !Reaches(s, j)
  {
    if top == 0 || Reaches(s, top) then top else LargestReached(s, top - 1)
  }

  /** The `as u32` cast of the real score: its floor, saturated. */
  function CastScore(s: Stat): u32
    requires s.maxRtt > 0
  {
    LargestReached(s, U32_MAX)
  }

  /** Every normalised term lies in [0, 1]. */
  ghost predicate InRange(s: Stat) {
    && s.maxRtt > 0
    && s.rtt <= s.maxRtt
    && 0.0 <= s.failRate <= 1.0
    && 0.0 <= s.variance <= MaxVariance(s.maxRtt)
    && 0.0 <= s.userWeight <= 1.0
    && AtMost(Latencies(s.queue), s.maxRtt)
  }

  lemma MaxVarianceIs(maxRtt: u32)
    ensures MaxVariance(maxRtt) == Square(maxRtt as real) / 2.0
    ensures maxRtt > 0 ==> MaxVariance(maxRtt) > 0.0
  {
    SquareNonNegative(maxRtt as real);
  }

  lemma QuotientAtLeast(k: real, x: real, w: real)
    requires w > 0.0
    ensures k <= x / w <==> Product(k, w) <= x
  {
    var q := x / w;
    assert Product(q, w) == x;
    if k <= q {
      assert Product(k, w) <= Product(q, w);
    } else {
      ProductPositive(k - q, w);
      assert Product(k - q, w) == Product(k, w) - Product(q, w);
    }
  }

  lemma ReachIsNeeded(s: Stat, k: nat, d: real)
    requires s.maxRtt > 0
    ensures k as real <= RealScore(s, d) <==> Needed(s, k) <= d
  {
    var x := (s.rtt as real / s.maxRtt as real + 3.0 * s.failRate + d) * 2000.0;
    QuotientAtLeast(k as real, x, Weight(s));
    RealScoreIs(s, d);
  }

  lemma ScaleQuotient(y: real, w: real)
    requires w > 0.0
    ensures y / 5.0 / w * 10000.0 == y * 2000.0 / w
  {
  }

  lemma SquareOrder(t: real, d: real, m: real)
    requires d >= 0.0 && m > 0.0
    ensures t <= d <==> t <= 0.0 || Product(Square(t), m) <= Product(Square(d), m)
  {
    if t > 0.0 {
      if t <= d {
        SquareMonotone(t, d);
        ProductMonotone(m, Square(t), Square(d));
        Commute(m, Square(t));
        Commute(m, Square(d));
      } else {
        ProductPositive(t - d, t + d);
        assert Product(t - d, t + d) == Square(t) - Square(d);
        ProductPositive(Square(t) - Square(d), m);
        assert Product(Square(t) - Square(d), m) == Product(Square(t), m) - Product(Square(d), m);
      }
    }
  }

  /** The score is the saturated floor of the real score, whether or not the terms are in range. */
  lemma ScoreIsCast(s: Stat, nstdev: real)
    requires s.maxRtt > 0 && s.failRate >= 0.0 && IsNormalisedStdev(s, nstdev)
    ensures CastScore(s) as real <= RealScore(s, nstdev)
    ensures CastScore(s) < U32_MAX ==> RealScore(s, nstdev) < CastScore(s) as real + 1.0
  {
    MaxVarianceIs(s.maxRtt);
    var k := CastScore(s);
    SquareOrder(Needed(s, k), nstdev, MaxVariance(s.maxRtt));
    ReachIsNeeded(s, k, nstdev);
    ZeroReached(s);
    if k < U32_MAX {
      assert !Reaches(s, k + 1);
      SquareOrder(Needed(s, k + 1), nstdev, MaxVariance(s.maxRtt));
      ReachIsNeeded(s, k + 1, nstdev);
    }
  }

  /** The same in full: latency, failures and deviation weigh 1, 3 and 1; the deviation is relative to that of the two
      samples 0 and the time-out; the user's weight divides, but nothing below `f32::EPSILON` does. */
  lemma ScoreInFull(s: Stat, nstdev: real)
    requires s.maxRtt > 0 && s.failRate >= 0.0 && nstdev >= 0.0
    requires nstdev * nstdev * (s.maxRtt as real * s.maxRtt as real / 2.0) == s.variance
    ensures var w := if s.userWeight < 1.0 / 8388608.0 then 1.0 / 8388608.0 else s.userWeight;
      var exact := (s.rtt as real / s.maxRtt as real + 3.0 * s.failRate + nstdev) / 5.0 / w * 10000.0;
      && CastScore(s) as real <= exact
      && (exact < CastScore(s) as real + 1.0 || CastScore(s) == 0xFFFF_FFFF)
  {
    hide CastScore;
    MaxVarianceIs(s.maxRtt);
    assert IsNormalisedStdev(s, nstdev);
    ScoreIsCast(s, nstdev);
  }

  /** A new server is rated as one that answered nothing within the time-out: the floor of 8000 / weight, saturated. */
  lemma NewServerScore(w: real, maxRtt: u32, window: nat)
    requires maxRtt > 0 && w >= 1.0 / 8388608.0
    ensures var score := CastScore(NewStat(w, maxRtt, window));
      && Product(score as real, w) <= 8000.0
      && (8000.0 < Product(score as real + 1.0, w) || score == 0xFFFF_FFFF)
    ensures var s := NewStat(w, maxRtt, window);
      s.failRate == 1.0 && s.rtt == maxRtt && s.queue == [] && s.variance == s.mean == 0.0
  {
    hide CastScore;
    var s := NewStat(w, maxRtt, window);
    ScoreInFull(s, 0.0);
    SelfQuotient(maxRtt as real);
    var k := CastScore(s) as real;
    assert k <= 4.0 / 5.0 / w * 10000.0;
    NewScoreBound(w);
    QuotientAtLeast(k, 8000.0, w);
    QuotientAtLeast(k + 1.0, 8000.0, w);
  }

  lemma NewScoreBound(w: real)
    requires w > 0.0
    ensures 4.0 / 5.0 / w * 10000.0 == 8000.0 / w
  {
  }

  lemma ZeroReached(s: Stat)
    requires s.maxRtt > 0 && s.failRate >= 0.0
    ensures Reaches(s, 0)
  {
    QuotientAtLeast(0.0, s.rtt as real, s.maxRtt as real);
    assert Product(0.0, Weight(s)) == 0.0;
  }

  /** Each normalised term lies in [0, 1], and the real score, before the cast, in [0, 10000 / weight]. */
  lemma RealScoreBounded(s: Stat, nstdev: real)
    requires InRange(s) && IsNormalisedStdev(s, nstdev)
    ensures 0.0 <= s.rtt as real / s.maxRtt as real <= 1.0 && 0.0 <= nstdev <= 1.0
    ensures 0.0 <= RealScore(s, nstdev) && Product(RealScore(s, nstdev), Weight(s)) <= 10000.0
  {
    MaxVarianceIs(s.maxRtt);
    var m := MaxVariance(s.maxRtt);
    SquareOrder(nstdev, 1.0, m);
    assert Product(Square(1.0), m) == m;
    DivideBound(s.rtt as real, s.maxRtt as real, 1.0);
    RealScoreIs(s, nstdev);
    var terms := s.rtt as real / s.maxRtt as real + 3.0 * s.failRate + nstdev;
    MeanTimes(terms * 2000.0, Weight(s));
    QuotientAtLeast(0.0, terms * 2000.0, Weight(s));
  }

  lemma RealScoreIs(s: Stat, nstdev: real)
    requires s.maxRtt > 0
    ensures RealScore(s, nstdev) == (s.rtt as real / s.maxRtt as real + 3.0 * s.failRate + nstdev) * 2000.0 / Weight(s)
  {
    ScaleQuotient(s.rtt as real / s.maxRtt as real + 3.0 * s.failRate + nstdev, Weight(s));
  }

  lemma ProductMonotone(k: real, v: real, w: real)
    requires k >= 0.0 && v <= w
    ensures Product(k, v) <= Product(k, w)
  {
    ScaleNonNegative(k, w - v);
  }

  lemma QuotientMonotone(a: real, b: real, m: real)
    requires a <= b && m > 0.0
    ensures a / m <= b / m
  {
    QuotientAtLeast(a / m, b, m);
    assert Product(a / m, m) == a;
  }

  lemma SquareMonotone(t: real, u: real)
    requires 0.0 <= t <= u
    ensures Square(t) <= Square(u)
  {
    ProductMonotone(t, t, u);
    ProductMonotone(u, t, u);
    assert Product(t, u) == Product(u, t);
  }

  /** Whatever reaches a score `k` keeps reaching it when it gets slower, fails more, varies more or weighs
      less. */
  lemma ReachMonotone(s: Stat, t: Stat, k: nat)
    requires s.maxRtt == t.maxRtt > 0
    requires s.rtt <= t.rtt && s.failRate <= t.failRate && s.variance <= t.variance && Weight(s) >= Weight(t)
    requires Reaches(s, k)
    ensures Reaches(t, k)
  {
    ProductMonotone(k as real, Weight(t), Weight(s));
    QuotientMonotone(s.rtt as real, t.rtt as real, s.maxRtt as real);
    assert Needed(t, k) <= Needed(s, k);
    MaxVarianceIs(s.maxRtt);
    hide Needed, Weight, Square, Product, MaxVariance;
    if Needed(t, k) > 0.0 {
      SquareMonotone(Needed(t, k), Needed(s, k));
      ProductMonotone(MaxVariance(s.maxRtt), Square(Needed(t, k)), Square(Needed(s, k)));
      Commute(MaxVariance(s.maxRtt), Square(Needed(t, k)));
      Commute(MaxVariance(s.maxRtt), Square(Needed(s, k)));
    }
  }

  lemma Commute(x: real, y: real)
    ensures Product(x, y) == Product(y, x)
  {
  }

  /** Lower latency, fewer errors, a smaller spread and a higher weight never make the score worse. */
  lemma ScoreMonotone(s: Stat, t: Stat)
    requires s.maxRtt == t.maxRtt > 0
    requires s.rtt <= t.rtt && s.failRate <= t.failRate && s.variance <= t.variance && Weight(s) >= Weight(t)
    ensures CastScore(s) <= CastScore(t)
  {
    hide Reaches, Weight;
    if CastScore(s) > 0 {
      ReachMonotone(s, t, CastScore(s));
    }
  }

  /** The score never exceeds `10000 / weight`: it is at most that of the widest spread, whose root is known. */
  lemma ScoreBounded(s: Stat)
    requires InRange(s)
    ensures Product(CastScore(s) as real, Weight(s)) <= 10000.0
  {
    MaxVarianceIs(s.maxRtt);
    var widest := s.(variance := MaxVariance(s.maxRtt));
    assert IsNormalisedStdev(widest, 1.0);
    hide MaxVariance, Product, RealScore, IsNormalisedStdev, CastScore;
    ScoreMonotone(s, widest);
    ScoreIsCast(widest, 1.0);
    RealScoreBounded(widest, 1.0);
    ProductMonotone(Weight(s), CastScore(s) as real, RealScore(widest, 1.0));
    Commute(Weight(s), CastScore(s) as real);
    Commute(Weight(s), RealScore(widest, 1.0));
  }

  /** When `10000 / weight` is below `u32::MAX` the cast does not saturate. */
  lemma ScoreBelowMax(s: Stat)
    requires InRange(s) && Product(U32_MAX as real, Weight(s)) > 10000.0
    ensures CastScore(s) < U32_MAX
  {
    hide CastScore, InRange;
    ScoreBounded(s);
  }

  /** Between equal weights, a server that always fails never scores better than one that never does and
      whose own terms are in range. */
  lemma FailuresDominate(s: Stat, t: Stat)
    requires s.maxRtt == t.maxRtt > 0 && Weight(s) == Weight(t)
    requires s.rtt <= s.maxRtt && s.variance <= MaxVariance(s.maxRtt)
    requires s.failRate == 0.0 && t.failRate == 1.0
    ensures CastScore(s) <= CastScore(t)
  {
    var k := CastScore(s);
    ZeroReached(s);
    MaxVarianceIs(s.maxRtt);
    SquareOrder(Needed(s, k), 1.0, MaxVariance(s.maxRtt));
    assert Product(Square(1.0), MaxVariance(s.maxRtt)) == MaxVariance(s.maxRtt);
    DivideBound(s.rtt as real, s.maxRtt as real, 1.0);
    QuotientAtLeast(0.0, t.rtt as real, t.maxRtt as real);
    assert Needed(t, k) <= 0.0;
    assert Reaches(t, k);
  }

  // ------------------------------------------------------------------ probes

  function Latencies(queue: seq<Probe>): seq<u32> {
    if queue == [] then []
    else
      Latencies(queue[..|queue| - 1]) +
      (match queue[|queue| - 1].score
       case Latency(ms) => [ms]
       case Errored => [])
  }

  function ErrorCount(queue: seq<Probe>): nat {
    if queue == [] then 0
    else ErrorCount(queue[..|queue| - 1]) + if queue[|queue| - 1].score.Errored? then 1 else 0
  }

  /** Removes probes older than the window from the front. */
  function DropExpired(queue: seq<Probe>, now: int, window: nat): (r: seq<Probe>)
    ensures |r| <= |queue| && r == queue[|queue| - |r|..]
  {
    if queue != [] && now - queue[0].at > window then DropExpired(queue[1..], now, window) else queue
  }

  function Recalculated(s: Stat): Stat {
    if s.queue == [] then s
    else
      var lat := Sort(Latencies(s.queue));
      var s1 := s.(failRate := ErrorCount(s.queue) as real / |s.queue| as real);
      if lat == [] then s1
      else
        var s2 := s1.(rtt := Median(lat));
        if |lat| == 1 then s2 else s2.(mean := ComputedMean(lat), variance := ComputedVariance(lat))
  }

  function Pushed(s: Stat, score: Score, now: int): Stat {
    Recalculated(s.(queue := DropExpired(s.queue + [Probe(score, now)], now, s.window)))
  }

  lemma {:induction false} CountsAddUp(queue: seq<Probe>)
    ensures |Latencies(queue)| + ErrorCount(queue) == |queue|
  {
    if queue != [] {
      CountsAddUp(queue[..|queue| - 1]);
    }
  }

  predicate ProbesAtMost(queue: seq<Probe>, top: u32) {
    forall i | 0 <= i < |queue| :: queue[i].score.Latency? ==> queue[i].score.ms <= top
  }

  lemma AtMostSnoc(v: seq<u32>, x: u32, top: u32)
    ensures AtMost(v + [x], top) <==> AtMost(v, top) && x <= top
  {
    assert (v + [x])[|v|] == x;
    assert forall i | 0 <= i < |v| :: (v + [x])[i] == v[i];
  }

  lemma {:induction false} AtMostByProbe(queue: seq<Probe>, top: u32)
    ensures AtMost(Latencies(queue), top) <==> ProbesAtMost(queue, top)
  {
    if queue != [] {
      var n := |queue| - 1;
      AtMostByProbe(queue[..n], top);
      assert ProbesAtMost(queue, top) <==>
        ProbesAtMost(queue[..n], top) && (queue[n].score.Latency? ==> queue[n].score.ms <= top);
      hide AtMost, ProbesAtMost;
      if queue[n].score.Latency? {
        AtMostSnoc(Latencies(queue[..n]), queue[n].score.ms, top);
      } else {
        assert Latencies(queue) == Latencies(queue[..n]);
      }
    }
  }

  lemma LatenciesOfSuffix(queue: seq<Probe>, k: nat, top: u32)
    requires k <= |queue| && AtMost(Latencies(queue), top)
    ensures AtMost(Latencies(queue[k..]), top)
  {
    hide AtMost, Latencies;
    AtMostByProbe(queue, top);
    AtMostByProbe(queue[k..], top);
  }

  lemma MedianAtMost(v: seq<u32>, top: u32)
    requires v != [] && AtMost(v, top)
    ensures Median(Sort(v)) <= top
  {
    SortSorts(v);
    SortAtMost(v, top);
    MedianBetweenMiddles(Sort(v));
  }

  lemma FailRateInRange(queue: seq<Probe>)
    requires queue != []
    ensures 0.0 <= ErrorCount(queue) as real / |queue| as real <= 1.0
  {
    CountsAddUp(queue);
    DivideBound(ErrorCount(queue) as real, |queue| as real, 1.0);
  }

  lemma ComputedVarianceInRange(lat: seq<u32>, top: u32)
    requires |lat| > 1 && AtMost(lat, top) && Sum(lat) <= U32_MAX
    ensures 0.0 <= ComputedVariance(Sort(lat)) <= MaxVariance(top)
  {
    hide *;
    SortKeepsSpread(lat);
    ComputedVarianceExact(Sort(lat));
    VarianceBounded(lat, top);
    MaxVarianceIs(top);
  }

  lemma RecalculatedInRange(s: Stat)
    requires InRange(s) && Sum(Latencies(s.queue)) <= U32_MAX
    ensures InRange(Recalculated(s))
  {
    var lat := Latencies(s.queue);
    hide MaxVariance, ComputedVariance, ComputedMean, Median, Sort, Latencies, ErrorCount, Sum;
    if s.queue != [] {
      FailRateInRange(s.queue);
      if lat != [] {
        MedianAtMost(lat, s.maxRtt);
        if |lat| > 1 {
          ComputedVarianceInRange(lat, s.maxRtt);
        }
      }
    }
  }

  lemma PushedQueue(s: Stat, score: Score, now: int)
    ensures Pushed(s, score, now).queue == DropExpired(s.queue + [Probe(score, now)], now, s.window)
  {
  }

  lemma RangeWithQueue(s: Stat, queue: seq<Probe>)
    requires InRange(s) && AtMost(Latencies(queue), s.maxRtt)
    ensures InRange(s.(queue := queue))
  {
    hide MaxVariance, Latencies;
  }

  lemma PushedIs(s: Stat, score: Score, now: int)
    ensures Pushed(s, score, now) == Recalculated(s.(queue := Pushed(s, score, now).queue))
  {
    PushedQueue(s, score, now);
    hide Recalculated, DropExpired;
  }

  lemma PushedLatencies(s: Stat, score: Score, now: int)
    requires AtMost(Latencies(s.queue), s.maxRtt) && (score.Latency? ==> score.ms <= s.maxRtt)
    ensures AtMost(Latencies(Pushed(s, score, now).queue), s.maxRtt)
  {
    hide Recalculated, Pushed, DropExpired;
    var pushed := s.queue + [Probe(score, now)];
    assert pushed[..|s.queue|] == s.queue;
    PushedQueue(s, score, now);
    LatenciesOfSuffix(pushed, |pushed| - |DropExpired(pushed, now, s.window)|, s.maxRtt);
  }

  /** A push keeps every normalised term in [0, 1], as long as latencies do not exceed the maximum and
      the latencies in the window add up in 32 bits. */
  lemma PushKeepsRange(s: Stat, score: Score, now: int)
    requires InRange(s) && (score.Latency? ==> score.ms <= s.maxRtt)
    requires Sum(Latencies(Pushed(s, score, now).queue)) <= U32_MAX
    ensures InRange(Pushed(s, score, now))
  {
    var queue := Pushed(s, score, now).queue;
    hide MaxVariance, Sum, Latencies, Pushed;
    PushedLatencies(s, score, now);
    RangeWithQueue(s, queue);
    PushedIs(s, score, now);
    hide InRange;
    RecalculatedInRange(s.(queue := queue));
  }

  lemma SelfQuotient(x: real)
    requires x > 0.0
    ensures x / x == 1.0
  {
  }

  /** A server whose first probe fails scores `u32::MAX` exactly when its weight is at most 8000 / u32::MAX. */
  lemma FirstErrorSaturates(w: real, maxRtt: u32, window: nat, now: int)
    requires 0.0 <= w <= 1.0 && maxRtt > 0
    ensures var s := NewStat(w, maxRtt, window);
      CastScore(Pushed(s, Errored, now)) == U32_MAX <==> Product(U32_MAX as real, Weight(s)) <= 8000.0
  {
    var s := Pushed(NewStat(w, maxRtt, window), Errored, now);
    var probe := [Probe(Errored, now)];
    assert [] + probe == probe && probe[..0] == [];
    assert s.queue == probe && Latencies(probe) == [] && ErrorCount(probe) == 1;
    assert 1 as real / 1 as real == 1.0;
    assert s.failRate == 1.0 && s.variance == 0.0 && s.rtt == maxRtt;
    SelfQuotient(maxRtt as real);
    MaxVarianceIs(maxRtt);
    SquareOrder(Needed(s, U32_MAX), 0.0, MaxVariance(maxRtt));
    assert Product(Square(0.0), MaxVariance(maxRtt)) == 0.0;
  }

  // ------------------------------------------------------------------ the objects

  class ServerStat {
    var rtt: u32
    const maxServerRtt: u32
    var failRate: real
    var latencyQueue: seq<Probe>
    var latencyVariance: real
    var latencyMean: real
    const userWeight: real
    const checkWindow: nat

    function State(): Stat
      reads this
    {
      Stat(rtt, maxServerRtt, failRate, latencyQueue, latencyVariance, latencyMean, userWeight, checkWindow)
    }

    constructor (weight: real, maxRtt: u32, window: nat)
      requires 0.0 <= weight <= 1.0
      ensures State() == NewStat(weight, maxRtt, window)
    {
      rtt := maxRtt;
      maxServerRtt := maxRtt;
      failRate := 1.0;
      latencyQueue := [];
      latencyVariance := 0.0;
      latencyMean := 0.0;
      userWeight := weight;
      checkWindow := window;
    }

    method PushScore(score: Score, now: int) returns (updated: u32)
      requires maxServerRtt > 0
      modifies this
      ensures State() == Pushed(old(State()), score, now)
      ensures updated == CastScore(State())
    {
      latencyQueue := latencyQueue + [Probe(score, now)];
      ghost var all := latencyQueue;
      while latencyQueue != []
        invariant DropExpired(latencyQueue, now, checkWindow) == DropExpired(all, now, checkWindow)
        invariant State() == old(State()).(queue := latencyQueue)
        decreases |latencyQueue|
      {
        if now - latencyQueue[0].at > checkWindow {
          latencyQueue := latencyQueue[1..];
        } else {
          break;
        }
      }
      updated := RecalculateScore();
    }

    method RecalculateScore() returns (updated: u32)
      requires maxServerRtt > 0
      modifies this
      ensures State() == Recalculated(old(State()))
      ensures updated == CastScore(State())
    {
      if latencyQueue == [] {
        return CastScore(State());
      }
      hide CastScore, Median, ComputedMean, ComputedVariance, Sort;
      var vlat, cerr := Tally(latencyQueue);
      failRate := cerr as real / |latencyQueue| as real;
      if vlat != [] {
        vlat := Sort(vlat);
        rtt := Median(vlat);
        if |vlat| > 1 {
          var mean, variance := Spread(vlat);
          latencyMean := mean;
          latencyVariance := variance;
        }
      }
      return CastScore(State());
    }
  }

  /** The latencies of a queue and the number of its errors. */
  method Tally(queue: seq<Probe>) returns (vlat: seq<u32>, cerr: nat)
    ensures vlat == Latencies(queue) && cerr == ErrorCount(queue)
  {
    vlat, cerr := [], 0;
    for i := 0 to |queue|
      invariant vlat == Latencies(queue[..i]) && cerr == ErrorCount(queue[..i])
    {
      assert queue[..i + 1][..i] == queue[..i];
      match queue[i].score {
        case Errored => cerr := cerr + 1;
        case Latency(ms) => vlat := vlat + [ms];
      }
    }
    assert queue[..|queue|] == queue;
  }

  /** Mean and corrected sample variance, from a 32-bit total. */
  method Spread(vlat: seq<u32>) returns (mean: real, variance: real)
    requires |vlat| > 1
    ensures mean == ComputedMean(vlat) && variance == ComputedVariance(vlat)
  {
    var total: u32 := 0;
    for i := 0 to |vlat|
      invariant total == WrappingSum(vlat[..i])
    {
      assert vlat[..i + 1][..i] == vlat[..i];
      total := WrappingAdd(total, vlat[i]);
    }
    assert vlat[..|vlat|] == vlat;
    mean := total as real / |vlat| as real;
    var accDiff := 0.0;
    for i := 0 to |vlat|
      invariant accDiff == Deviation(vlat[..i], mean)
    {
      assert vlat[..i + 1][..i] == vlat[..i];
      accDiff := accDiff + Square(vlat[i] as real - mean);
    }
    variance := accDiff / (|vlat| - 1) as real;
  }

  class ServerScore {
    const statData: ServerStat
    /** Last published score. */
    var score: u32

    constructor (weight: real, maxRtt: u32, window: nat)
      requires 0.0 <= weight <= 1.0 && maxRtt > 0
      ensures score == U32_MAX && statData.State() == NewStat(weight, maxRtt, window) && fresh(statData)
    {
      statData := new ServerStat(weight, maxRtt, window);
      score := U32_MAX;
    }

    method PushScore(s: Score, now: int) returns (updated: u32)
      requires statData.maxServerRtt > 0
      modifies this, statData
      ensures statData.State() == Pushed(old(statData.State()), s, now)
      ensures score == updated == CastScore(statData.State())
    {
      updated := statData.PushScore(s, now);
      score := updated;
    }
  }
}
