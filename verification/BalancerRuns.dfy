/** Runs of the checkers of one context of `ping_balancer.rs`: when the best server stays enabled. */
module BalancerRuns {
  import opened Prelude
  import opened Samples
  import opened ServerStats
  import opened ScoreHistories
  import opened EvenProbes
  import opened PingBalancer

  // ------------------------------------------------------------------ schedules

  function Finishes(actions: seq<Action>): nat {
    if actions == [] then 0
    else Finishes(actions[..|actions| - 1]) + if actions[|actions| - 1].Finish? then 1 else 0
  }

  predicate PacedAt(actions: seq<Action>, i: nat, m: nat, step: nat)
    requires i < |actions|
  {
    actions[i].Push? ==> actions[i].now == Times(m + Finishes(actions[..i]), step)
  }

  /** Probes end at equal distances: those after the first `m + k` checks at `(m + k) * step`. */
  predicate Paced(actions: seq<Action>, m: nat, step: nat) {
    forall i | 0 <= i < |actions| :: PacedAt(actions, i, m, step)
  }

  /** Checks of the best server are made only if they are configured. */
  predicate Allowed(actions: seq<Action>, best: bool) {
    best || Start(BestServer) !in actions
  }

  /** One check from start to end, whose probes end at `now`. */
  predicate IsRound(actions: seq<Action>, t: TaskId, now: int) {
    && |actions| >= 2 && actions[0] == Start(t) && actions[|actions| - 1] == Finish(t)
    && forall i | 0 < i < |actions| - 1 :: actions[i].Push? && actions[i].now == now
  }

  lemma {:induction false} FinishesAppend(a: seq<Action>, b: seq<Action>)
    ensures Finishes(a + b) == Finishes(a) + Finishes(b)
  {
    if b == [] {
      assert a + b == a;
    } else {
      var n := |b| - 1;
      FinishesAppend(a, b[..n]);
      assert (a + b)[..|a + b| - 1] == a + b[..n];
    }
  }

  lemma PacedAtAppend(a: seq<Action>, b: seq<Action>, i: nat, m: nat, step: nat)
    requires i < |a + b|
    requires if i < |a| then PacedAt(a, i, m, step) else PacedAt(b, i - |a|, m + Finishes(a), step)
    ensures PacedAt(a + b, i, m, step)
  {
    hide Times, Finishes;
    if i < |a| {
      assert (a + b)[..i] == a[..i];
    } else {
      assert (a + b)[..i] == a + b[..i - |a|];
      FinishesAppend(a, b[..i - |a|]);
    }
  }

  lemma PacedAppend(a: seq<Action>, b: seq<Action>, m: nat, step: nat)
    requires Paced(a, m, step) && Paced(b, m + Finishes(a), step)
    ensures Paced(a + b, m, step)
  {
    hide PacedAt, Finishes;
    forall i | 0 <= i < |a + b|
      ensures PacedAt(a + b, i, m, step)
    {
      PacedAtAppend(a, b, i, m, step);
    }
  }

  lemma {:induction false} NoFinish(actions: seq<Action>)
    requires forall a <- actions :: !a.Finish?
    ensures Finishes(actions) == 0
  {
    if actions != [] {
      NoFinish(actions[..|actions| - 1]);
    }
  }

  lemma RoundPaced(actions: seq<Action>, t: TaskId, m: nat, step: nat)
    requires IsRound(actions, t, Times(m, step))
    ensures Paced(actions, m, step) && Finishes(actions) == 1
  {
    var n := |actions| - 1;
    hide Times;
    forall i | 0 <= i <= n
      ensures Finishes(actions[..i]) == 0
    {
      NoFinish(actions[..i]);
    }
  }

  lemma RoundAllowed(actions: seq<Action>, now: int)
    requires IsRound(actions, AllServers, now)
    ensures Start(BestServer) !in actions
  {
  }

  lemma {:induction false} StepsAppend(c: Context, a: seq<Action>, d: Context, b: seq<Action>, e: Context)
    requires StepsTo(c, a, d) && StepsTo(d, b, e)
    ensures StepsTo(c, a + b, e)
    decreases |a|
  {
    hide Step, CanStep, Plausible;
    if a == [] {
      assert a + b == b;
    } else {
      var rest := a[1..];
      StepsAppend(Step(c, a[0]), rest, d, b, e);
      assert a + b == [a[0]] + (rest + b);
      hide StepsTo;
      StepsCons(c, a[0], rest + b, e);
    }
  }

  /** The actions of one check. */
  function RoundOf(t: TaskId, pushes: seq<Action>): seq<Action> {
    [Start(t)] + (pushes + ([Finish(t)] + []))
  }

  lemma RoundOfIs(t: TaskId, pushes: seq<Action>, now: int)
    requires forall a <- pushes :: a.Push? && a.now == now
    ensures IsRound(RoundOf(t, pushes), t, now)
  {
    var actions := RoundOf(t, pushes);
    assert |actions| == |pushes| + 2;
    forall i | 0 < i < |actions| - 1
      ensures actions[i].Push? && actions[i].now == now
    {
      assert actions[i] == pushes[i - 1];
    }
  }

  /** A check is its start, its probes and its end. */
  lemma RoundSteps(c: Context, t: TaskId, e: Context, pushes: seq<Action>, f: Context, d: Context)
    requires c.WellFormed() && CanStep(c, Start(t)) && e == Step(c, Start(t)) && StepsTo(e, pushes, f)
    requires f.WellFormed() && CanStep(f, Finish(t)) && d == Step(f, Finish(t))
    ensures StepsTo(c, RoundOf(t, pushes), d)
  {
    hide StepsTo, Step, CanStep;
    NoStepsLeft(d);
    StepsCons(f, Finish(t), [], d);
    StepsAppend(e, pushes, f, [Finish(t)] + [], d);
    StepsCons(c, Start(t), pushes + ([Finish(t)] + []), d);
  }

  // ------------------------------------------------------------------ histories of servers

  /** Server `i` has the statistics of the history `h`. */
  ghost predicate HasHistory(c: Context, q: Proto, i: nat, window: nat, h: seq<Probe>)
    requires c.WellFormed() && i < |c.servers|
  {
    c.At(q).records[i].stat == Run(NewStat(WeightFor(c.servers[i], q), c.maxRtt, window), h)
  }

  predicate ScoreIsCurrent(r: Record)
    requires r.stat.maxRtt > 0
  {
    r.score == CastScore(r.stat)
  }

  predicate SameList(c: Context, d: Context) {
    d.servers == c.servers && d.mode == c.mode && d.maxRtt == c.maxRtt
  }

  function Other(p: Proto): Proto {
    if p == Tcp then Udp else Tcp
  }

  function Taken(t: Task, q: Proto, i: nat): Task
    requires t.Checking?
  {
    t.(pending := t.pending - {(q, i)})
  }

  /** A probe of server `i` by the task `t` has been recorded in `d`. */
  ghost predicate Recorded(c: Context, d: Context, t: TaskId, q: Proto, i: nat, r: Record)
    requires c.WellFormed() && d.WellFormed() && TaskOf(c, t).Checking?
  {
    && SameList(c, d) && d.checked == c.checked && i < |c.servers|
    && d.all == (if t == AllServers then Taken(c.all, q, i) else c.all)
    && d.bestOnly == (if t == BestServer then Taken(c.bestOnly, q, i) else c.bestOnly)
    && d.At(q) == c.At(q).(records := c.At(q).records[i := r])
    && d.At(Other(q)) == c.At(Other(q))
  }

  lemma PushRecorded(c: Context, t: TaskId, q: Proto, i: nat, score: Score, now: int) returns (d: Context, r: Record)
    requires c.WellFormed() && CanStep(c, Push(t, q, i, score, now)) && i < |c.servers|
    ensures d == Step(c, Push(t, q, i, score, now)) && Recorded(c, d, t, q, i, r)
    ensures r.stat == Pushed(c.At(q).records[i].stat, score, now)
    ensures r.stat.maxRtt > 0 && ScoreIsCurrent(r)
  {
    hide Pushed, CastScore, PushTo;
    StepIsPush(c, t, q, i, score, now);
    PushToIs(c, q, i, score, now);
    var s := Pushed(c.At(q).records[i].stat, score, now);
    r := Record(s, CastScore(s));
    d := Step(c, Push(t, q, i, score, now));
    var e := PushTo(c, q, i, score, now);
    assert Other(q) != q;
    hide Step;
    assert d.At(q) == e.At(q) && d.At(Other(q)) == e.At(Other(q));
  }

  /** The next probe of a history whose sums fit is plausible. */
  lemma NextPlausible(s: Stat, h: seq<Probe>, x: Probe)
    requires s.queue == [] && IsHistory(h + [x], s.maxRtt) && SumsFit(h + [x], s.window)
    ensures Pushed(Run(s, h), x.score, x.at) == Run(s, h + [x])
    ensures Sum(Latencies(Pushed(Run(s, h), x.score, x.at).queue)) <= U32_MAX
    ensures x.score.Latency? ==> x.score.ms <= s.maxRtt
  {
    var all := h + [x];
    assert all[..|h|] == h && all[|h|] == x && all[..|h| + 1] == all;
    hide Pushed, Sum, Latencies, Recent;
    QueueIsRecent(s, all);
  }

  lemma PushPlausible(c: Context, t: TaskId, window: nat, h: seq<Probe>, x: Probe, q: Proto, i: nat)
    requires c.WellFormed() && TaskOf(c, t).Checking? && (q, i) in TaskOf(c, t).pending && i < |c.servers|
    requires HasHistory(c, q, i, window, h) && IsHistory(h + [x], c.maxRtt) && SumsFit(h + [x], window)
    ensures var a := Push(t, q, i, x.score, x.at);
      CanStep(c, a) && Plausible(c, a)
    ensures Pushed(c.At(q).records[i].stat, x.score, x.at) ==
      Run(NewStat(WeightFor(c.servers[i], q), c.maxRtt, window), h + [x])
  {
    hide Pushed, Run, Latencies, Sum, IsHistory, SumsFit;
    var start := NewStat(WeightFor(c.servers[i], q), c.maxRtt, window);
    assert c.At(q).records[i].stat == Run(start, h);
    NextPlausible(start, h, x);
  }

  /** One more probe of a server with a history. */
  lemma PushHistory(c: Context, t: TaskId, window: nat, h: seq<Probe>, x: Probe, q: Proto, i: nat)
    returns (d: Context, r: Record)
    requires c.WellFormed() && TaskOf(c, t).Checking? && (q, i) in TaskOf(c, t).pending && i < |c.servers|
    requires HasHistory(c, q, i, window, h) && IsHistory(h + [x], c.maxRtt) && SumsFit(h + [x], window)
    ensures var a := Push(t, q, i, x.score, x.at);
      CanStep(c, a) && Plausible(c, a) && d == Step(c, a)
    ensures Recorded(c, d, t, q, i, r)
    ensures r.stat == Run(NewStat(WeightFor(c.servers[i], q), c.maxRtt, window), h + [x])
    ensures r.stat.maxRtt > 0 && ScoreIsCurrent(r)
  {
    hide Plausible, Pushed, Run, CastScore, IsHistory, SumsFit, HasHistory, Recorded, NewStat, Step;
    PushPlausible(c, t, window, h, x, q, i);
    d, r := PushRecorded(c, t, q, i, x.score, x.at);
  }

  // ------------------------------------------------------------------ checks of all servers

  /** What the check of all servers has made of server `i` when its probes all give `x` after the history `h`. */
  ghost predicate Probing(c: Context, q: Proto, i: nat, window: nat, h: seq<Probe>, x: Probe)
    requires c.WellFormed() && c.all.Checking? && i < |c.servers|
  {
    if (q, i) in c.all.pending then HasHistory(c, q, i, window, h)
    else HasHistory(c, q, i, window, h + [x]) && ScoreIsCurrent(c.At(q).records[i])
  }

  ghost predicate AllProbing(c: Context, window: nat, h: seq<Probe>, x: Probe)
    requires c.WellFormed() && c.all.Checking?
  {
    forall q: Proto, i: nat | i < |c.servers| && Flag(c.all, q) && Probes(c.servers[i], c.mode, q) ::
      Probing(c, q, i, window, h, x)
  }

  /** Between two checks of all servers, those it probes share the history `h`. */
  ghost predicate AllHave(c: Context, window: nat, h: seq<Probe>)
    requires c.WellFormed()
  {
    forall q: Proto, i: nat | i < |c.servers| && ManyProbed(c, q) && Probes(c.servers[i], c.mode, q) ::
      HasHistory(c, q, i, window, h)
  }

  predicate PendingFlagged(c: Context)
    requires c.WellFormed() && c.all.Checking?
  {
    forall x <- c.all.pending :: x.1 < |c.servers| && Flag(c.all, x.0) && Probes(c.servers[x.1], c.mode, x.0)
  }

  /** What a check of all servers does not touch. */
  predicate Spared(c: Context, d: Context)
    requires c.all.Checking?
  {
    d.bestOnly == c.bestOnly && forall q: Proto | !Flag(c.all, q) :: d.At(q) == c.At(q)
  }

  lemma RecordedKeeps(
    c: Context, d: Context, window: nat, h: seq<Probe>, x: Probe, q: Proto, i: nat, r: Record, p: Proto)
    requires c.WellFormed() && d.WellFormed() && c.all.Checking? && Recorded(c, d, AllServers, q, i, r)
    requires PendingFlagged(c) && AllProbing(c, window, h, x) && (q, i) in c.all.pending
    requires r.stat == Run(NewStat(WeightFor(c.servers[i], q), c.maxRtt, window), h + [x])
    requires r.stat.maxRtt > 0 && ScoreIsCurrent(r)
    ensures PendingFlagged(d) && AllProbing(d, window, h, x) && Spared(c, d)
    ensures OnlyProbedScore(c.servers, c.mode, p, c.At(p).records) ==>
      OnlyProbedScore(d.servers, d.mode, p, d.At(p).records)
  {
    hide Run, CastScore, Enabled, Serves, Probes, NewStat;
    forall s: Proto, j: nat | j < |d.servers| && Flag(d.all, s) && Probes(d.servers[j], d.mode, s)
      ensures Probing(d, s, j, window, h, x)
    {
      assert Probing(c, s, j, window, h, x);
      assert s == q || s == Other(q);
    }
    forall s: Proto | !Flag(c.all, s)
      ensures d.At(s) == c.At(s)
    {
      assert s == q || s == Other(q);
    }
    assert p == q || p == Other(q);
  }

  /** The probes still pending of a check whose probes all give `x`. */
  lemma PushAll(c: Context, window: nat, h: seq<Probe>, x: Probe, p: Proto) returns (actions: seq<Action>, d: Context)
    requires c.WellFormed() && c.all.Checking? && PendingFlagged(c) && AllProbing(c, window, h, x)
    requires IsHistory(h + [x], c.maxRtt) && SumsFit(h + [x], window)
    ensures StepsTo(c, actions, d) && forall a <- actions :: a.Push? && a.now == x.at
    ensures d.WellFormed() && SameList(c, d) && d.all == c.all.(pending := {}) && AllProbing(d, window, h, x)
    ensures Spared(c, d)
    ensures OnlyProbedScore(c.servers, c.mode, p, c.At(p).records) ==>
      OnlyProbedScore(d.servers, d.mode, p, d.At(p).records)
    decreases |c.all.pending|
  {
    if c.all.pending == {} {
      actions, d := [], c;
      NoStepsLeft(c);
    } else {
      var next :| next in c.all.pending;
      assert Probing(c, next.0, next.1, window, h, x);
      hide AllProbing, PendingFlagged, OnlyProbedScore, IsHistory, SumsFit, Step, StepsTo, CanStep, Plausible,
        HasHistory, NewStat, Run, ScoreIsCurrent;
      actions, d := PushNext(c, window, h, x, p, next.0, next.1);
    }
  }

  lemma PushNext(c: Context, window: nat, h: seq<Probe>, x: Probe, p: Proto, q: Proto, i: nat)
    returns (actions: seq<Action>, d: Context)
    requires c.WellFormed() && c.all.Checking? && PendingFlagged(c) && AllProbing(c, window, h, x)
    requires (q, i) in c.all.pending && i < |c.servers| && HasHistory(c, q, i, window, h)
    requires IsHistory(h + [x], c.maxRtt) && SumsFit(h + [x], window)
    ensures StepsTo(c, actions, d) && forall a <- actions :: a.Push? && a.now == x.at
    ensures d.WellFormed() && SameList(c, d) && d.all == c.all.(pending := {}) && AllProbing(d, window, h, x)
    ensures Spared(c, d)
    ensures OnlyProbedScore(c.servers, c.mode, p, c.At(p).records) ==>
      OnlyProbedScore(d.servers, d.mode, p, d.At(p).records)
    decreases |c.all.pending|, 0
  {
    hide AllProbing, PendingFlagged, OnlyProbedScore, IsHistory, SumsFit, Step, StepsTo, CanStep, Plausible, HasHistory,
      NewStat, Run, ScoreIsCurrent;
    var e, r := PushHistory(c, AllServers, window, h, x, q, i);
    RecordedKeeps(c, e, window, h, x, q, i, r, p);
    assert |e.all.pending| < |c.all.pending|;
    var rest: seq<Action>;
    rest, d := PushAll(e, window, h, x, p);
    var a := Push(AllServers, q, i, x.score, x.at);
    StepsCons(c, a, rest, d);
    actions := [a] + rest;
  }

  /** State between two checks of all servers: those probed for a protocol share a history. */
  ghost predicate Ready(c: Context, window: nat, h: seq<Probe>, p: Proto) {
    && c.WellFormed() && c.all.Idle? && ManyProbed(c, p)
    && AllHave(c, window, h)
    && OnlyProbedScore(c.servers, c.mode, p, c.At(p).records)
  }

  /** A check of all servers probes exactly those that serve a protocol more than one of them serves. */
  lemma ProbedWell(c: Context)
    requires c.WellFormed()
    ensures var t := StartAll(c);
      && (t.Checking? <==> ManyProbed(c, Tcp) || ManyProbed(c, Udp))
      && (t.Checking? ==> forall q: Proto :: Flag(t, q) <==> ManyProbed(c, q))
      && (t.Checking? ==> forall q: Proto, i: nat ::
        (q, i) in t.pending <==> i < |c.servers| && ManyProbed(c, q) && Probes(c.servers[i], c.mode, q))
  {
    hide Enabled, Serves;
  }

  lemma StartRound(c: Context, window: nat, h: seq<Probe>, x: Probe, p: Proto) returns (d: Context)
    requires Ready(c, window, h, p)
    ensures CanStep(c, Start(AllServers)) && d == Step(c, Start(AllServers))
    ensures SameList(c, d) && d.bestOnly == c.bestOnly && forall q: Proto :: d.At(q) == c.At(q)
    ensures d.all.Checking? && forall q: Proto :: Flag(d.all, q) <==> ManyProbed(c, q)
    ensures PendingFlagged(d) && AllProbing(d, window, h, x)
  {
    hide Run, StartAll, Probes, ManyProbed, OnlyProbedScore;
    d := c.(all := StartAll(c));
    ProbedWell(c);
    assert d.all.Checking? && Flag(d.all, p);
    forall q: Proto, i: nat | i < |d.servers| && Flag(d.all, q) && Probes(d.servers[i], d.mode, q)
      ensures Probing(d, q, i, window, h, x)
    {
      assert (q, i) in d.all.pending;
      assert HasHistory(c, q, i, window, h);
    }
  }

  /** What the end of a check selects for a protocol, when its probes all gave the last of `h`. */
  ghost predicate Selected(c: Context, window: nat, h: seq<Probe>, p: Proto)
    requires c.WellFormed()
  {
    && (forall i: nat | i < |c.servers| && Probes(c.servers[i], c.mode, p) ::
      HasHistory(c, p, i, window, h) && ScoreIsCurrent(c.At(p).records[i]))
    && c.servers != [] && c.At(p).best == FirstMinimum(Scores(c.At(p).records))
  }

  lemma ManyServe(c: Context, p: Proto)
    requires ManyProbed(c, p)
    ensures Serves(c.mode, p) && c.servers != []
  {
    var list := Probed(c.servers, c.mode, p, |c.servers|);
    assert list[0] in list;
  }

  lemma FinishRound(c: Context, window: nat, h: seq<Probe>, x: Probe, p: Proto) returns (d: Context)
    requires c.WellFormed() && c.all.Checking? && c.all.pending == {} && AllProbing(c, window, h, x)
    requires (forall q: Proto :: Flag(c.all, q) <==> ManyProbed(c, q)) && ManyProbed(c, p)
    requires OnlyProbedScore(c.servers, c.mode, p, c.At(p).records)
    ensures CanStep(c, Finish(AllServers)) && d == Step(c, Finish(AllServers))
    ensures SameList(c, d) && Ready(d, window, h + [x], p) && Selected(d, window, h + [x], p)
    ensures d.checked && Spared(c, d)
  {
    hide Run, Probed, Scores, FirstMinimum, CastScore;
    d := FinishTask(c, AllServers);
    ManyServe(c, p);
    assert forall q: Proto :: d.At(q).records == c.At(q).records;
    assert d.At(p) == SelectSide(c.At(p));
    assert SameList(c, d) && d.all.Idle? && Spared(c, d);
    hide FinishTask;
    forall q: Proto, i: nat | i < |d.servers| && ManyProbed(d, q) && Probes(d.servers[i], d.mode, q)
      ensures HasHistory(d, q, i, window, h + [x]) && ScoreIsCurrent(d.At(q).records[i])
    {
      assert Probing(c, q, i, window, h, x);
    }
  }

  /** A check of all servers whose probes all give `x`. */
  lemma Round(c: Context, window: nat, h: seq<Probe>, x: Probe, p: Proto) returns (actions: seq<Action>, d: Context)
    requires Ready(c, window, h, p)
    requires IsHistory(h + [x], c.maxRtt) && SumsFit(h + [x], window)
    ensures StepsTo(c, actions, d) && IsRound(actions, AllServers, x.at)
    ensures SameList(c, d) && Ready(d, window, h + [x], p) && Selected(d, window, h + [x], p)
    ensures d.checked && d.bestOnly == c.bestOnly
    ensures forall q: Proto | !ManyProbed(c, q) :: d.At(q) == c.At(q)
  {
    hide AllProbing, PendingFlagged, OnlyProbedScore, IsHistory, SumsFit, Step, StepsTo, CanStep, AllHave, Probed,
      StartAll, Selected, IsRound, RoundOf;
    var e := StartRound(c, window, h, x, p);
    var pushes, f := PushAll(e, window, h, x, p);
    assert forall q: Proto :: ManyProbed(f, q) <==> ManyProbed(c, q);
    d := FinishRound(f, window, h, x, p);
    RoundSteps(c, AllServers, e, pushes, f, d);
    RoundOfIs(AllServers, pushes, x.at);
    actions := RoundOf(AllServers, pushes);
  }

  lemma EvenLast(h: seq<Probe>, from: int, step: nat, n: nat)
    requires Even(h, from, step) && n <= |h|
    ensures Even(h[..n], from, step) && (n > 0 ==> h[n - 1].at == from + Times(n - 1, step))
  {
    hide Times;
  }

  lemma {:induction false} NoRounds(c: Context, window: nat, p: Proto, h: seq<Probe>, step: nat)
    returns (actions: seq<Action>, d: Context)
    requires Ready(c, window, [], p)
    ensures StepsTo(c, actions, d) && SameList(c, d) && Start(BestServer) !in actions && Finishes(actions) == 0
    ensures Paced(actions, 0, step) && Ready(d, window, h[..0], p)
  {
    actions, d := [], c;
    NoStepsLeft(c);
    assert h[..0] == [];
  }

  /** Checks of all servers in which every probe goes as the history says. */
  lemma {:induction false} Rounds(c: Context, window: nat, p: Proto, h: seq<Probe>, n: nat, step: nat)
    returns (actions: seq<Action>, d: Context)
    requires Ready(c, window, [], p) && n <= |h| && IsHistory(h, c.maxRtt) && SumsFit(h, window)
    ensures StepsTo(c, actions, d) && SameList(c, d) && Start(BestServer) !in actions && Finishes(actions) == n
    ensures Ready(d, window, h[..n], p) && (n > 0 ==> Selected(d, window, h[..n], p))
    ensures Even(h, 0, step) ==> Paced(actions, 0, step)
  {
    hide Ready, Selected, StepsTo, IsHistory, SumsFit, Paced, Finishes, Even, IsRound;
    if n == 0 {
      actions, d := NoRounds(c, window, p, h, step);
    } else {
      var first, e := Rounds(c, window, p, h, n - 1, step);
      assert h[..n] == h[..n - 1] + [h[n - 1]];
      PrefixOfHistory(h, c.maxRtt, window, n);
      var last: seq<Action>;
      last, d := Round(e, window, h[..n - 1], h[n - 1], p);
      RoundAllowed(last, h[n - 1].at);
      actions := first + last;
      StepsAppend(c, first, e, last, d);
      FinishesAppend(first, last);
      RoundFinishes(last, AllServers, h[n - 1].at);
      if Even(h, 0, step) {
        EvenLast(h, 0, step, n);
        RoundPaced(last, AllServers, n - 1, step);
        PacedAppend(first, last, 0, step);
      }
    }
  }

  lemma RoundFinishes(actions: seq<Action>, t: TaskId, now: int)
    requires IsRound(actions, t, now)
    ensures Finishes(actions) == 1
  {
    NoFinish(actions[..|actions| - 1]);
  }

  /** A server whose score can saturate has the initial score after a worst history. */
  lemma LightSaturates(server: Server, p: Proto, maxRtt: u32, window: nat, h: seq<Probe>)
    requires maxRtt > 0 && !Heavy(server, p) && EndsWorst(h, maxRtt, window)
    ensures var s := Run(NewStat(WeightFor(server, p), maxRtt, window), h);
      s.maxRtt == maxRtt && CastScore(s) == U32_MAX
  {
    assert Product(U32_MAX as real, EPSILON) <= 10000.0;
    hide Run, MaxVariance, CastScore, Product;
    var start := NewStat(WeightFor(server, p), maxRtt, window);
    var s := Run(start, h);
    assert IsWorst(s, maxRtt);
    RunSettings(start, h);
    assert Weight(s) == WeightFor(server, p) || Weight(s) == EPSILON;
    WorstSaturates(s);
  }

  lemma WorstSelection(c: Context, window: nat, p: Proto, h: seq<Probe>)
    requires c.WellFormed() && !SomeHeavy(c.servers, c.mode, p) && EndsWorst(h, c.maxRtt, window)
    requires OnlyProbedScore(c.servers, c.mode, p, c.At(p).records)
    requires Selected(c, window, h, p)
    ensures c.At(p).best == 0
  {
    hide Run, CastScore, Heavy, Scores, FirstMinimum, EndsWorst;
    forall i: nat | i < |c.servers|
      ensures c.At(p).records[i].score == U32_MAX
    {
      if Probes(c.servers[i], c.mode, p) {
        LightSaturates(c.servers[i], p, c.maxRtt, window, h);
        assert HasHistory(c, p, i, window, h);
      }
    }
    AllSaturatedSelectsFirst(c.At(p).records);
  }

  lemma AllSaturatedSelectsFirst(records: seq<Record>)
    requires records != [] && forall i | 0 <= i < |records| :: records[i].score == U32_MAX
    ensures FirstMinimum(Scores(records)) == 0
  {
    var scores := Scores(records);
    assert scores[FirstMinimum(scores)] == U32_MAX && scores[0] == U32_MAX;
  }

  // ------------------------------------------------------------------ checks of the best server

  predicate AllErrored(queue: seq<Probe>) {
    forall x <- queue :: x.score.Errored?
  }

  lemma {:induction false} ErroredLatencies(queue: seq<Probe>)
    requires AllErrored(queue)
    ensures Latencies(queue) == []
  {
    if queue != [] {
      ErroredLatencies(queue[..|queue| - 1]);
    }
  }

  lemma ErroredPush(s: Stat, now: int)
    requires AllErrored(s.queue)
    ensures AllErrored(Pushed(s, Errored, now).queue) && Sum(Latencies(Pushed(s, Errored, now).queue)) == 0
  {
    hide Pushed, Latencies, Sum, DropExpired;
    PushedQueue(s, Errored, now);
    ErroredLatencies(Pushed(s, Errored, now).queue);
    SmallTotals(0);
  }

  /** The servers probed for a protocol have only failed so far. */
  predicate OnlyFailed(c: Context, q: Proto)
    requires c.WellFormed()
  {
    forall j | 0 <= j < |c.servers| && Probes(c.servers[j], c.mode, q) :: AllErrored(c.At(q).records[j].stat.queue)
  }

  /** Server `i` is the only one probed. */
  predicate Solo(c: Context, p: Proto, i: nat) {
    i < |c.servers| && forall j | 0 <= j < |c.servers| :: Probes(c.servers[j], c.mode, p) <==> j == i
  }

  /** Between two checks of the best server, which is the only one probed for `p` and has the history `h`. */
  ghost predicate SoloReady(c: Context, window: nat, h: seq<Probe>, p: Proto, i: nat) {
    && c.WellFormed() && c.bestOnly.Idle? && c.checked && Solo(c, p, i)
    && c.At(p).best == i && HasHistory(c, p, i, window, h)
    && OnlyProbedScore(c.servers, c.mode, p, c.At(p).records) && OnlyFailed(c, Other(p))
  }

  /** What is left of a check of the best server after the probe of `i`. */
  ghost predicate SoloProbed(c: Context, window: nat, h: seq<Probe>, p: Proto, i: nat) {
    && c.WellFormed() && c.bestOnly.Checking? && Flag(c.bestOnly, p) && c.checked && Solo(c, p, i)
    && HasHistory(c, p, i, window, h) && ScoreIsCurrent(c.At(p).records[i])
    && OnlyProbedScore(c.servers, c.mode, p, c.At(p).records) && OnlyFailed(c, Other(p))
  }

  lemma SoloStart(c: Context, window: nat, h: seq<Probe>, p: Proto, i: nat) returns (d: Context)
    requires SoloReady(c, window, h, p, i)
    ensures CanStep(c, Start(BestServer)) && d == Step(c, Start(BestServer))
    ensures SameList(c, d) && d.checked && d.bestOnly.Checking? && Flag(d.bestOnly, p)
    ensures forall q: Proto :: d.At(q) == c.At(q)
    ensures (p, i) in d.bestOnly.pending
    ensures forall x <- d.bestOnly.pending | x != (p, i) ::
      x.0 == Other(p) && x.1 < |c.servers| && Probes(c.servers[x.1], c.mode, x.0)
    ensures |d.bestOnly.pending - {(p, i)}| <= 1
  {
    hide Run, OnlyProbedScore, OnlyFailed, HasHistory;
    assert Probes(c.servers[i], c.mode, p);
    d := c.(bestOnly := StartBest(c));
    var q := Other(p);
    assert d.bestOnly.pending - {(p, i)} == {} || d.bestOnly.pending - {(p, i)} == {(q, c.At(q).best)};
  }

  lemma SoloPush(c: Context, window: nat, h: seq<Probe>, x: Probe, p: Proto, i: nat) returns (d: Context)
    requires c.WellFormed() && c.bestOnly.Checking? && (p, i) in c.bestOnly.pending && Flag(c.bestOnly, p)
    requires c.checked && Solo(c, p, i) && HasHistory(c, p, i, window, h)
    requires OnlyProbedScore(c.servers, c.mode, p, c.At(p).records) && OnlyFailed(c, Other(p))
    requires IsHistory(h + [x], c.maxRtt) && SumsFit(h + [x], window)
    ensures var a := Push(BestServer, p, i, x.score, x.at);
      CanStep(c, a) && Plausible(c, a) && d == Step(c, a)
    ensures SameList(c, d) && SoloProbed(d, window, h + [x], p, i)
    ensures d.bestOnly == Taken(c.bestOnly, p, i)
  {
    hide IsHistory, SumsFit, Plausible, CanStep, Step, Run, CastScore, NewStat, Probes;
    var r: Record;
    d, r := PushHistory(c, BestServer, window, h, x, p, i);
  }

  lemma SoloFail(c: Context, window: nat, h: seq<Probe>, p: Proto, i: nat, j: nat, now: int) returns (d: Context)
    requires SoloProbed(c, window, h, p, i) && j < |c.servers| && Probes(c.servers[j], c.mode, Other(p))
    requires (Other(p), j) in c.bestOnly.pending
    ensures var a := Push(BestServer, Other(p), j, Errored, now);
      CanStep(c, a) && Plausible(c, a) && d == Step(c, a)
    ensures SameList(c, d) && SoloProbed(d, window, h, p, i)
    ensures d.bestOnly == Taken(c.bestOnly, Other(p), j)
  {
    hide Pushed, Latencies, Sum, Run, CastScore, NewStat, Step, Probes, AllErrored;
    var q := Other(p);
    ErroredPush(c.At(q).records[j].stat, now);
    assert Other(q) == p;
    var r: Record;
    d, r := PushRecorded(c, BestServer, q, j, Errored, now);
  }

  /** The probes of a check of the best server. */
  lemma SoloProbes(c: Context, window: nat, h: seq<Probe>, x: Probe, p: Proto, i: nat)
    returns (pushes: seq<Action>, d: Context)
    requires c.WellFormed() && c.bestOnly.Checking? && (p, i) in c.bestOnly.pending && Flag(c.bestOnly, p)
    requires forall y <- c.bestOnly.pending | y != (p, i) ::
      y.0 == Other(p) && y.1 < |c.servers| && Probes(c.servers[y.1], c.mode, y.0)
    requires |c.bestOnly.pending - {(p, i)}| <= 1
    requires c.checked && Solo(c, p, i) && HasHistory(c, p, i, window, h)
    requires OnlyProbedScore(c.servers, c.mode, p, c.At(p).records) && OnlyFailed(c, Other(p))
    requires IsHistory(h + [x], c.maxRtt) && SumsFit(h + [x], window)
    ensures StepsTo(c, pushes, d) && forall a <- pushes :: a.Push? && a.now == x.at
    ensures SameList(c, d) && SoloProbed(d, window, h + [x], p, i) && d.bestOnly.pending == {}
  {
    hide IsHistory, SumsFit, Plausible, CanStep, Step, HasHistory, OnlyProbedScore, OnlyFailed, Solo, StepsTo, Probes,
      ScoreIsCurrent;
    var e := SoloPush(c, window, h, x, p, i);
    var first := Push(BestServer, p, i, x.score, x.at);
    if e.bestOnly.pending == {} {
      d := e;
      NoStepsLeft(d);
      StepsCons(c, first, [], d);
      pushes := [first] + [];
    } else {
      var y :| y in e.bestOnly.pending;
      assert {y} <= e.bestOnly.pending;
      SingletonOf(e.bestOnly.pending, y);
      d := SoloFail(e, window, h + [x], p, i, y.1, x.at);
      var second := Push(BestServer, Other(p), y.1, Errored, x.at);
      NoStepsLeft(d);
      StepsCons(e, second, [], d);
      StepsCons(c, first, [second] + [], d);
      pushes := [first] + ([second] + []);
    }
  }

  lemma SingletonOf<T>(s: set<T>, x: T)
    requires x in s && |s| <= 1
    ensures s == {x}
  {
    assert |s - {x}| == 0;
  }

  /** A server list's best server is usable: it is one of its own and enabled. */
  predicate Usable(c: Context, p: Proto) {
    c.At(p).best < |c.servers| && Enabled(c.servers[c.At(p).best], p)
  }

  /** After a check that selects, either the only probed server is the best one still, or a disabled one is. */
  ghost predicate SoloSelected(c: Context, window: nat, h: seq<Probe>, p: Proto, i: nat) {
    && SoloReady(c, window, h, p, i) && ScoreIsCurrent(c.At(p).records[i])
    && c.At(p).best == FirstMinimum(Scores(c.At(p).records))
  }

  lemma SoloFinish(c: Context, window: nat, h: seq<Probe>, p: Proto, i: nat) returns (d: Context)
    requires SoloProbed(c, window, h, p, i) && c.bestOnly.pending == {}
    ensures CanStep(c, Finish(BestServer)) && d == Step(c, Finish(BestServer))
    ensures SameList(c, d) && (SoloSelected(d, window, h, p, i) || !Usable(d, p))
  {
    hide Run, Scores, FirstMinimum, CastScore, NewStat, AllErrored;
    assert Probes(c.servers[i], c.mode, p);
    d := FinishTask(c, BestServer);
    assert forall q: Proto :: d.At(q).records == c.At(q).records;
    assert d.At(p) == SelectSide(c.At(p));
    if d.At(p).best != i {
      assert !Probes(c.servers[d.At(p).best], c.mode, p);
    }
  }

  lemma SoloRound(c: Context, window: nat, h: seq<Probe>, x: Probe, p: Proto, i: nat)
    returns (actions: seq<Action>, d: Context)
    requires SoloReady(c, window, h, p, i)
    requires IsHistory(h + [x], c.maxRtt) && SumsFit(h + [x], window)
    ensures StepsTo(c, actions, d) && IsRound(actions, BestServer, x.at)
    ensures SameList(c, d) && (SoloSelected(d, window, h + [x], p, i) || !Usable(d, p))
  {
    hide IsHistory, SumsFit, Step, StepsTo, CanStep, HasHistory, OnlyProbedScore, OnlyFailed, Solo, SoloSelected,
      Usable, SoloProbed, IsRound, RoundOf, Probes;
    var e := SoloStart(c, window, h, p, i);
    StartedKeeps(c, e, window, h, p, i);
    var pushes, f := SoloProbes(e, window, h, x, p, i);
    assert f.WellFormed() by {
      ProbedFits(f, window, h + [x], p, i);
    }
    d := SoloFinish(f, window, h + [x], p, i);
    RoundSteps(c, BestServer, e, pushes, f, d);
    RoundOfIs(BestServer, pushes, x.at);
    actions := RoundOf(BestServer, pushes);
  }

  lemma ProbedFits(c: Context, window: nat, h: seq<Probe>, p: Proto, i: nat)
    requires SoloProbed(c, window, h, p, i)
    ensures c.WellFormed()
  {
  }

  lemma StartedKeeps(c: Context, d: Context, window: nat, h: seq<Probe>, p: Proto, i: nat)
    requires SoloReady(c, window, h, p, i) && d.WellFormed()
    requires SameList(c, d) && forall q: Proto :: d.At(q) == c.At(q)
    ensures Solo(d, p, i) && HasHistory(d, p, i, window, h)
    ensures OnlyProbedScore(d.servers, d.mode, p, d.At(p).records) && OnlyFailed(d, Other(p))
  {
    hide Run, NewStat, AllErrored, Probes;
  }

  /** Checks of the best server in which the only one probed for `p` goes through the history, until it is no
      longer the best. */
  lemma {:induction false} SoloRounds(
    c: Context, window: nat, p: Proto, i: nat, h: seq<Probe>, n: nat, step: nat)
    returns (actions: seq<Action>, d: Context)
    requires SoloReady(c, window, [], p, i) && n <= |h| && IsHistory(h, c.maxRtt) && SumsFit(h, window)
    ensures StepsTo(c, actions, d) && SameList(c, d)
    ensures Usable(d, p) ==>
      && Finishes(actions) == n && SoloReady(d, window, h[..n], p, i)
      && (n > 0 ==> SoloSelected(d, window, h[..n], p, i))
    ensures Even(h, step, step) ==> Paced(actions, 1, step)
  {
    hide SoloReady, SoloSelected, StepsTo, IsHistory, SumsFit, Paced, Finishes, Even, IsRound, Usable;
    if n == 0 {
      actions, d := NoSoloRounds(c, h, step);
      assert h[..0] == [];
    } else {
      var first, e := SoloRounds(c, window, p, i, h, n - 1, step);
      if !Usable(e, p) {
        return first, e;
      }
      assert h[..n] == h[..n - 1] + [h[n - 1]];
      PrefixOfHistory(h, c.maxRtt, window, n);
      var last: seq<Action>;
      last, d := SoloRound(e, window, h[..n - 1], h[n - 1], p, i);
      if Usable(d, p) {
        SelectedReady(d, window, h[..n], p, i);
      }
      actions := first + last;
      StepsAppend(c, first, e, last, d);
      FinishesAppend(first, last);
      RoundFinishes(last, BestServer, h[n - 1].at);
      if Even(h, step, step) {
        EvenLast(h, step, step, n);
        NextTime(n - 1, step);
        RoundPaced(last, BestServer, n, step);
        PacedAppend(first, last, 1, step);
      }
    }
  }

  lemma SelectedReady(c: Context, window: nat, h: seq<Probe>, p: Proto, i: nat)
    requires SoloSelected(c, window, h, p, i)
    ensures SoloReady(c, window, h, p, i)
  {
  }

  lemma NoSoloRounds(c: Context, h: seq<Probe>, step: nat) returns (actions: seq<Action>, d: Context)
    ensures StepsTo(c, actions, d) && d == c && actions == [] && Finishes(actions) == 0 && Paced(actions, 1, step)
  {
    actions, d := [], c;
    NoStepsLeft(c);
  }

  /** After a worst history the only probed server can be the best one only as the first of the list. */
  lemma SoloEnds(c: Context, window: nat, h: seq<Probe>, p: Proto, i: nat)
    requires SoloSelected(c, window, h, p, i) && EndsWorst(h, c.maxRtt, window) && !Heavy(c.servers[i], p)
    ensures i == 0
  {
    hide Run, CastScore, Heavy, Scores, FirstMinimum, EndsWorst, AllErrored;
    var records := c.At(p).records;
    LightSaturates(c.servers[i], p, c.maxRtt, window, h);
    assert records[i].score == U32_MAX;
    forall j | 0 <= j < |records|
      ensures records[j].score == U32_MAX
    {
      assert j != i ==> !Probes(c.servers[j], c.mode, p);
    }
    AllSaturatedSelectsFirst(records);
  }

  // ------------------------------------------------------------------ new contexts

  lemma InitialFits(servers: seq<Server>, mode: Mode, p: Proto)
    ensures servers != [] ==> InitialBest(servers, mode, p) < |servers|
  {
  }

  lemma FreshFits(servers: seq<Server>, mode: Mode, maxRtt: u32, window: nat)
    requires maxRtt > 0
    ensures NewContext(servers, mode, maxRtt, window).WellFormed()
  {
    InitialFits(servers, mode, Tcp);
    InitialFits(servers, mode, Udp);
    hide InitialBest;
  }

  lemma FreshReady(servers: seq<Server>, mode: Mode, maxRtt: u32, window: nat, p: Proto)
    requires maxRtt > 0 && ManyProbed(NewContext(servers, mode, maxRtt, window), p)
    ensures Ready(NewContext(servers, mode, maxRtt, window), window, [], p)
  {
    hide Probed, Enabled, Serves, InitialBest;
    var c := NewContext(servers, mode, maxRtt, window);
    FreshFits(servers, mode, maxRtt, window);
    forall q: Proto, i: nat | i < |servers|
      ensures HasHistory(c, q, i, window, [])
    {
    }
  }

  lemma SoloIndex(c: Context, p: Proto) returns (i: nat)
    requires |Probed(c.servers, c.mode, p, |c.servers|)| == 1
    ensures Solo(c, p, i)
  {
    var list := Probed(c.servers, c.mode, p, |c.servers|);
    i := list[0];
    assert i in list && list == [i];
    forall j | 0 <= j < |c.servers|
      ensures Probes(c.servers[j], c.mode, p) <==> j == i
    {
      ProbedHas(c, p, j);
    }
  }

  lemma OneFailure(maxRtt: u32, window: nat)
    ensures var h := [Probe(Errored, 0)];
      IsHistory(h, maxRtt) && SumsFit(h, window) && [] + h == h
    ensures forall w: real :: AllErrored(Run(NewStat(w, maxRtt, window), [Probe(Errored, 0)]).queue)
  {
    hide Pushed, Recent, Latencies, Sum;
    var h := [Probe(Errored, 0)];
    assert [] + h == h && h[..0] == [] && h[..1] == h;
    assert forall i | 0 <= i < 1 :: 0 - h[i].at <= window;
    RecentAll(h, 0, window);
    ErroredLatencies(h);
    SmallTotals(0);
    forall w: real
      ensures AllErrored(Run(NewStat(w, maxRtt, window), h).queue)
    {
      QueueIsRecent(NewStat(w, maxRtt, window), h);
    }
  }

  lemma FreshSolo(servers: seq<Server>, mode: Mode, maxRtt: u32, window: nat, p: Proto, i: nat)
    requires maxRtt > 0
    requires Solo(NewContext(servers, mode, maxRtt, window), p, i)
    ensures var c := NewContext(servers, mode, maxRtt, window);
      && c.WellFormed() && c.At(p).best == i && HasHistory(c, p, i, window, [])
      && OnlyProbedScore(servers, mode, p, c.At(p).records)
  {
    FreshFits(servers, mode, maxRtt, window);
    var c := NewContext(servers, mode, maxRtt, window);
    assert Probes(c.servers[i], mode, p);
    var k := FirstEnabled(servers, p, 0);
    assert Probes(c.servers[k.value], mode, p);
  }

  /** One check of all servers, whose probes all fail; the only server probed for `p` is not among them. */
  lemma SoloBegins(servers: seq<Server>, mode: Mode, maxRtt: u32, window: nat, p: Proto, i: nat)
    returns (actions: seq<Action>, d: Context)
    requires maxRtt > 0
    requires var c := NewContext(servers, mode, maxRtt, window);
      Solo(c, p, i) && !ManyProbed(c, p) && ManyProbed(c, Other(p))
    ensures var c := NewContext(servers, mode, maxRtt, window);
      StepsTo(c, actions, d) && SameList(c, d)
    ensures IsRound(actions, AllServers, 0) && SoloReady(d, window, [], p, i)
  {
    hide Probed, StepsTo, IsRound, Run, Enabled, AllErrored, NewStat, IsHistory, SumsFit, InitialBest;
    var c := NewContext(servers, mode, maxRtt, window);
    var q, h := Other(p), [Probe(Errored, 0)];
    FreshSolo(servers, mode, maxRtt, window, p, i);
    FreshReady(servers, mode, maxRtt, window, q);
    OneFailure(maxRtt, window);
    actions, d := Round(c, window, [], h[0], q);
    assert d.At(p) == c.At(p) && d.bestOnly == c.bestOnly;
    forall j | 0 <= j < |d.servers| && Probes(d.servers[j], d.mode, q)
      ensures AllErrored(d.At(q).records[j].stat.queue)
    {
      assert HasHistory(d, q, j, window, [] + h);
    }
    SoloCarried(c, d, window, p, i);
  }

  lemma SoloCarried(c: Context, d: Context, window: nat, p: Proto, i: nat)
    requires c.WellFormed() && d.WellFormed() && SameList(c, d) && d.At(p) == c.At(p)
    requires Solo(c, p, i) && c.At(p).best == i && HasHistory(c, p, i, window, [])
    requires OnlyProbedScore(c.servers, c.mode, p, c.At(p).records)
    requires d.bestOnly.Idle? && d.checked && OnlyFailed(d, Other(p))
    ensures SoloReady(d, window, [], p, i)
  {
    hide Run, NewStat, AllErrored, Probes;
  }

  // ------------------------------------------------------------------ when the best server is always enabled

  /** The condition on the server list: the first server is enabled, or the score of some probed one cannot
      saturate; or the only probed one is never checked, because the other protocol does not have several servers
      to probe or the best server is not checked by itself. */
  predicate KeepsUsable(servers: seq<Server>, mode: Mode, p: Proto, best: bool) {
    || Anchored(servers, mode, p)
    || (&& |Probed(servers, mode, p, |servers|)| == 1
        && (best ==> |Probed(servers, mode, Other(p), |servers|)| <= 1))
  }

  lemma {:induction false} StepsSound(c: Context, actions: seq<Action>, d: Context)
    requires Sound(c) && StepsTo(c, actions, d)
    ensures Sound(d) && d.servers == c.servers && d.mode == c.mode
    decreases |actions|
  {
    hide Sound, Plausible, Step, CanStep;
    if actions != [] {
      StepSound(c, actions[0]);
      StepKeepsList(c, actions[0]);
      StepsSound(Step(c, actions[0]), actions[1..], d);
    }
  }

  /** No check will select for the protocol. */
  predicate Settled(c: Context, p: Proto, best: bool) {
    && c.WellFormed()
    && (Serves(c.mode, p) ==>
      && !ManyProbed(c, p) && c.bestOnly.Idle? && (c.all.Checking? ==> !Flag(c.all, p))
      && (best ==> !ManyProbed(c, Other(p)) && c.all.Idle? && !c.checked))
  }

  lemma SettledStep(c: Context, a: Action, p: Proto, best: bool)
    requires Settled(c, p, best) && CanStep(c, a) && (best || a != Start(BestServer))
    ensures var d := Step(c, a);
      Settled(d, p, best) && d.At(p).best == c.At(p).best && d.servers == c.servers && d.mode == c.mode
  {
    hide Probed, Pushed, CastScore, Scores, FirstMinimum, StartBest, Serves, StartAll;
    match a
    case Start(t) =>
      if t == AllServers {
        ProbedWell(c);
        assert best && Serves(c.mode, p) ==> !ManyProbed(c, Tcp) && !ManyProbed(c, Udp);
      }
    case Push(t, q, i, score, now) =>
      StepIsPush(c, t, q, i, score, now);
      PushToIs(c, q, i, score, now);
    case Finish(t) =>
    case Abort =>
  }

  lemma {:induction false} SettledStays(c: Context, actions: seq<Action>, d: Context, p: Proto, best: bool)
    requires Settled(c, p, best) && StepsTo(c, actions, d) && Allowed(actions, best)
    ensures d.At(p).best == c.At(p).best && d.servers == c.servers
    decreases |actions|
  {
    hide Settled, Step, CanStep, Plausible;
    if actions != [] {
      assert actions[0] in actions;
      SettledStep(c, actions[0], p, best);
      SettledStays(Step(c, actions[0]), actions[1..], d, p, best);
    }
  }

  lemma InitialUsable(servers: seq<Server>, mode: Mode, maxRtt: u32, window: nat, p: Proto)
    ensures Usable(NewContext(servers, mode, maxRtt, window), p) <==>
      SomeProbed(servers, mode, p) || (servers != [] && Enabled(servers[0], p))
  {
    var c := NewContext(servers, mode, maxRtt, window);
    if Serves(mode, p) {
      match FirstEnabled(servers, p, 0)
      case Some(k) => assert Probes(servers[k], mode, p);
      case None =>
    }
  }

  lemma HeavyIsProbed(servers: seq<Server>, mode: Mode, p: Proto)
    ensures SomeHeavy(servers, mode, p) ==> SomeProbed(servers, mode, p)
  {
    hide Heavy;
  }

  lemma NewSettled(servers: seq<Server>, mode: Mode, maxRtt: u32, window: nat, p: Proto, best: bool)
    requires maxRtt > 0 && KeepsUsable(servers, mode, p, best)
    requires !(SomeProbed(servers, mode, p) && Anchored(servers, mode, p))
    ensures var c := NewContext(servers, mode, maxRtt, window); Settled(c, p, best) && Usable(c, p)
  {
    FreshFits(servers, mode, maxRtt, window);
    InitialUsable(servers, mode, maxRtt, window, p);
    hide Probed, Heavy;
    var c := NewContext(servers, mode, maxRtt, window);
    if |Probed(servers, mode, p, |servers|)| == 1 {
      var i := SoloIndex(c, p);
      assert Probes(servers[i], mode, p);
    } else {
      HeavyIsProbed(servers, mode, p);
      assert servers != [] && Enabled(servers[0], p);
      assert !Probes(servers[0], mode, p);
    }
  }

  lemma UsableAfter(
    servers: seq<Server>, mode: Mode, maxRtt: u32, window: nat, p: Proto, best: bool, actions: seq<Action>, d: Context)
    requires maxRtt > 0 && forall i | 0 <= i < |servers| :: Weighted(servers[i])
    requires KeepsUsable(servers, mode, p, best)
    requires StepsTo(NewContext(servers, mode, maxRtt, window), actions, d) && Allowed(actions, best)
    ensures Usable(d, p)
  {
    hide StepsTo, Weighted, Enabled, Sound, KeepsUsable, Anchored, SomeProbed, NewRecords, InitialBest, Allowed,
      Settled;
    var c := NewContext(servers, mode, maxRtt, window);
    if SomeProbed(servers, mode, p) && Anchored(servers, mode, p) {
      InitialSound(servers, mode, maxRtt, window);
      StepsSound(c, actions, d);
      BestOfSound(d, p);
    } else {
      NewSettled(servers, mode, maxRtt, window, p, best);
      SettledStays(c, actions, d, p, best);
    }
  }

  /** A run whose best server ends disabled, evenly paced if the window allows that. */
  ghost predicate Fails(c: Context, actions: seq<Action>, d: Context, p: Proto, best: bool, window: nat, step: nat) {
    && StepsTo(c, actions, d) && Allowed(actions, best) && !Usable(d, p)
    && (0 < step <= window ==> Paced(actions, 0, step))
  }

  lemma ManyFail(
    servers: seq<Server>, mode: Mode, maxRtt: u32, window: nat, p: Proto, best: bool, step: nat)
    returns (actions: seq<Action>, d: Context)
    requires maxRtt > 0 && !Anchored(servers, mode, p) && |Probed(servers, mode, p, |servers|)| > 1
    ensures Fails(NewContext(servers, mode, maxRtt, window), actions, d, p, best, window, step)
  {
    hide StepsTo, SomeHeavy, OnlyProbedScore, Probed, Selected, EndsWorst, IsHistory, SumsFit, Even, Paced, NewRecords,
      InitialBest, AllHave, Finishes;
    var c := NewContext(servers, mode, maxRtt, window);
    FreshReady(servers, mode, maxRtt, window, p);
    ManyServe(c, p);
    var h := SomeWorst(maxRtt, window, 0, step);
    actions, d := Rounds(c, window, p, h, |h|, step);
    assert h[..|h|] == h;
    WorstSelection(d, window, p, h);
  }

  lemma SoloFails(
    servers: seq<Server>, mode: Mode, maxRtt: u32, window: nat, p: Proto, step: nat)
    returns (actions: seq<Action>, d: Context)
    requires maxRtt > 0 && !Anchored(servers, mode, p) && |Probed(servers, mode, p, |servers|)| == 1
    requires |Probed(servers, mode, Other(p), |servers|)| > 1
    ensures Fails(NewContext(servers, mode, maxRtt, window), actions, d, p, true, window, step)
  {
    hide StepsTo, Probed, SoloReady, SoloSelected, EndsWorst, IsHistory, SumsFit, Even, Paced, NewRecords, InitialBest,
      Finishes, IsRound, Heavy, Times, Usable;
    var c := NewContext(servers, mode, maxRtt, window);
    var i := SoloIndex(c, p);
    assert Probes(c.servers[i], mode, p) && !Heavy(c.servers[i], p);
    var first, e := SoloBegins(servers, mode, maxRtt, window, p, i);
    var h := SomeWorst(maxRtt, window, step, step);
    var last: seq<Action>;
    last, d := SoloRounds(e, window, p, i, h, |h|, step);
    assert h[..|h|] == h;
    if Usable(d, p) {
      SoloEnds(d, window, h, p, i);
    }
    actions := first + last;
    StepsAppend(c, first, e, last, d);
    if 0 < step <= window {
      NextTime(0, step);
      RoundPaced(first, AllServers, 0, step);
      PacedAppend(first, last, 0, step);
    }
  }

  lemma SomeRunFails(
    servers: seq<Server>, mode: Mode, maxRtt: u32, window: nat, p: Proto, best: bool, step: nat)
    returns (actions: seq<Action>, d: Context)
    requires maxRtt > 0 && !KeepsUsable(servers, mode, p, best)
    ensures Fails(NewContext(servers, mode, maxRtt, window), actions, d, p, best, window, step)
  {
    hide Probed, Anchored, Fails, NewRecords, InitialBest;
    var c := NewContext(servers, mode, maxRtt, window);
    var n := |Probed(servers, mode, p, |servers|)|;
    if n > 1 {
      actions, d := ManyFail(servers, mode, maxRtt, window, p, best, step);
    } else if n == 1 {
      actions, d := SoloFails(servers, mode, maxRtt, window, p, step);
    } else {
      actions, d := [], c;
      NoneFail(servers, mode, maxRtt, window, p, best, step);
    }
  }

  lemma NoneFail(servers: seq<Server>, mode: Mode, maxRtt: u32, window: nat, p: Proto, best: bool, step: nat)
    requires maxRtt > 0 && !Anchored(servers, mode, p) && |Probed(servers, mode, p, |servers|)| == 0
    ensures var c := NewContext(servers, mode, maxRtt, window); Fails(c, [], c, p, best, window, step)
  {
    var c := NewContext(servers, mode, maxRtt, window);
    forall i | 0 <= i < |servers|
      ensures !Probes(servers[i], mode, p)
    {
      ProbedHas(c, p, i);
    }
    InitialUsable(servers, mode, maxRtt, window, p);
    NoStepsLeft(c);
  }

  /** For every server list: the best server is enabled after every run of the checkers exactly when the list meets
      the condition. The same holds for runs whose probes end at equal distances, as the timers make them, for
      every distance within the window. */
  lemma AlwaysUsableIff(
    servers: seq<Server>, mode: Mode, maxRtt: u32, window: nat, p: Proto, best: bool, step: nat)
    requires maxRtt > 0 && forall i | 0 <= i < |servers| :: Weighted(servers[i])
    ensures (forall actions, d |
        && StepsTo(NewContext(servers, mode, maxRtt, window), actions, d)
        && Allowed(actions, best) ::
        Usable(d, p))
      <==> KeepsUsable(servers, mode, p, best)
    ensures 0 < step <= window ==>
      ((forall actions, d |
          && StepsTo(NewContext(servers, mode, maxRtt, window), actions, d)
          && Allowed(actions, best) && Paced(actions, 0, step) ::
          Usable(d, p))
        <==> KeepsUsable(servers, mode, p, best))
  {
    hide StepsTo, Weighted, KeepsUsable, NewContext, Allowed, Paced, Usable;
    if KeepsUsable(servers, mode, p, best) {
      forall actions, d |
        StepsTo(NewContext(servers, mode, maxRtt, window), actions, d) && Allowed(actions, best)
        ensures Usable(d, p)
      {
        UsableAfter(servers, mode, maxRtt, window, p, best, actions, d);
      }
    } else {
      var actions, d := SomeRunFails(servers, mode, maxRtt, window, p, best, step);
    }
  }
}
