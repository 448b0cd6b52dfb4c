/** What the balancer of `ping_balancer.rs` does for one protocol depends on that protocol alone: its state is a
    replay of its own probes and selections, and its guarantees are told by its own weights. */
module BalancerReplay {
  import opened BalancerRuns
  import opened PingBalancer
  import opened Prelude
  import opened Samples
  import opened ServerStats

  // ------------------------------------------------------------------ one protocol of one context

  /** What happens to the records and the best index of a protocol. */
  datatype SideEvent = Checked(idx: nat, score: Score, now: int) | Chosen

  function Next(side: Side, e: SideEvent): Side {
    match e
    case Checked(i, score, now) =>
      if i < |side.records| && Pushed(side.records[i].stat, score, now).maxRtt > 0 then
        var stat := Pushed(side.records[i].stat, score, now);
        side.(records := side.records[i := Record(stat, CastScore(stat))])
      else side
    case Chosen => if side.records != [] then side.(best := FirstMinimum(Scores(side.records))) else side
  }

  function Replay(start: Side, trace: seq<SideEvent>): Side {
    if trace == [] then start else Next(Replay(start, trace[..|trace| - 1]), trace[|trace| - 1])
  }

  /** The end of the check `t` selects for the protocol. */
  predicate Selects(c: Context, t: TaskId, p: Proto) {
    && TaskOf(c, t).Checking? && Flag(TaskOf(c, t), p)
    && match p
       case Tcp => c.mode != UdpOnly
       case Udp => c.mode != TcpOnly
  }

  /** What event `e` means for a protocol of context `k`: probes of that protocol, failures reported for TCP servers,
      and the ends of checks that select for it. */
  function Meaning(b: Balancer, e: Event, k: nat, p: Proto): seq<SideEvent> {
    match e
    case Checker(which, action) =>
      if which != k then []
      else
        (match action
         case Push(_, q, i, score, now) => if q == p then [Checked(i, score, now)] else []
         case Finish(t) => if k < |b.contexts| && Selects(b.contexts[k], t, p) then [Chosen] else []
         case _ => [])
    case ReportFailure(which, i, now) => if which == k && p == Tcp then [Checked(i, Errored, now)] else []
    case _ => []
  }

  function Trace(states: seq<Balancer>, events: seq<Event>, k: nat, p: Proto, n: nat): seq<SideEvent>
    requires n <= |events| <= |states|
  {
    if n == 0 then [] else Trace(states, events, k, p, n - 1) + Meaning(states[n - 1], events[n - 1], k, p)
  }

  function NewSide(settings: Settings, servers: seq<Server>, p: Proto): Side {
    Side(NewRecords(servers, p, settings.maxRtt, settings.window), InitialBest(servers, settings.mode, p))
  }

  lemma MeaningIsShort(b: Balancer, e: Event, k: nat, p: Proto)
    ensures |Meaning(b, e, k, p)| <= 1
  {
    hide Selects;
  }

  lemma SelectsExact(c: Context, t: TaskId, p: Proto)
    requires c.WellFormed() && CanStep(c, Finish(t))
    ensures Step(c, Finish(t)).At(p) == if Selects(c, t, p) then Next(c.At(p), Chosen) else c.At(p)
  {
    ServesExact(c.mode);
    hide FirstMinimum, Scores, Serves;
  }

  lemma CheckerMeans(c: Context, a: Action, p: Proto)
    requires c.WellFormed() && CanStep(c, a)
    ensures Step(c, a).At(p) ==
      if a.Push? && a.proto == p then Next(c.At(p), Checked(a.idx, a.score, a.now))
      else if a.Finish? && Selects(c, a.task, p) then Next(c.At(p), Chosen)
      else c.At(p)
  {
    match a
    case Push(t, q, i, score, now) =>
      hide Pushed, CastScore, FirstMinimum, Scores, Selects;
      StepIsPush(c, t, q, i, score, now);
      PushToIs(c, q, i, score, now);
      hide PushTo, Step;
    case Finish(t) =>
      SelectsExact(c, t, p);
      hide Next;
    case _ =>
      hide StartAll, StartBest, Next, Selects;
  }

  /** One event does to a protocol of a context what it means for it, and nothing else does. */
  lemma HappenMeans(b: Balancer, e: Event, k: nat, p: Proto)
    requires ContextsFit(b) && Possible(b, e) && k < |b.contexts|
    ensures k < |Happen(b, e).contexts|
    ensures Happen(b, e).contexts[k].servers == b.contexts[k].servers
    ensures var side, m := b.contexts[k].At(p), Meaning(b, e, k, p);
      Happen(b, e).contexts[k].At(p) == if m == [] then side else Next(side, m[0])
  {
    hide Step, Next, Selects, PushTo, Plausible, CanStep, ReportPlausible;
    match e
    case Checker(which, action) =>
      CheckerMeans(b.contexts[which], action, p);
      StepKeepsList(b.contexts[which], action);
    case ReportFailure(which, i, now) =>
      ReportMeans(b.contexts[which], i, now, p);
    case _ =>
  }

  lemma ReportMeans(c: Context, i: nat, now: int, p: Proto)
    requires c.WellFormed() && i < |c.servers|
    ensures PushTo(c, Tcp, i, Errored, now).At(p) ==
      if p == Tcp then Next(c.At(Tcp), Checked(i, Errored, now)) else c.At(p)
  {
    hide Pushed, CastScore;
    PushToIs(c, Tcp, i, Errored, now);
    hide PushTo;
  }

  lemma RunStep(states: seq<Balancer>, events: seq<Event>, i: nat)
    requires IsRun(states, events) && i < |events|
    ensures ContextsFit(states[i]) && Possible(states[i], events[i]) && states[i + 1] == Happen(states[i], events[i])
  {
    hide ContextsFit, Possible, Happen;
  }

  /** A context that does not exist yet hears nothing and begins as a new one. */
  lemma HappenNew(b: Balancer, e: Event, k: nat, p: Proto)
    requires ContextsFit(b) && Possible(b, e)
    ensures Happen(b, e).settings == b.settings && |b.contexts| <= |Happen(b, e).contexts|
    ensures k >= |b.contexts| ==> Meaning(b, e, k, p) == []
    ensures k >= |b.contexts| && k < |Happen(b, e).contexts| ==>
      Happen(b, e).contexts[k].At(p) == NewSide(b.settings, Happen(b, e).contexts[k].servers, p)
  {
    hide Selects, Step, PushTo, Plausible, CanStep, ReportPlausible, NewRecords, InitialBest;
  }

  lemma {:induction false} TraceBefore(
    settings: Settings, servers: seq<Server>, states: seq<Balancer>, events: seq<Event>, k: nat, p: Proto, n: nat)
    requires IsRun(states, events) && states[0] == Build(settings, servers) && n < |states|
    requires k >= |states[n].contexts|
    ensures Trace(states, events, k, p, n) == []
  {
    assert |states| == |events| + 1;
    hide IsRun, ContextsFit, Possible, Happen, Meaning, Build;
    if n > 0 {
      RunStep(states, events, n - 1);
      HappenNew(states[n - 1], events[n - 1], k, p);
      TraceBefore(settings, servers, states, events, k, p, n - 1);
    }
  }

  lemma ReplayMore(start: Side, trace: seq<SideEvent>, more: seq<SideEvent>)
    requires |more| <= 1
    ensures Replay(start, trace + more) ==
      if more == [] then Replay(start, trace) else Next(Replay(start, trace), more[0])
  {
    hide Next;
    assert more == [] ==> trace + more == trace;
    assert more != [] ==> (trace + more)[..|trace|] == trace;
  }

  lemma BuildIsNew(settings: Settings, servers: seq<Server>, p: Proto)
    ensures var c := Build(settings, servers).contexts[0];
      c.servers == servers && c.At(p) == NewSide(settings, servers, p)
  {
    hide NewRecords, InitialBest;
  }

  /** In every run, the records and the best index of a protocol of a context are what replaying its own probes and
      selections makes of new records and the initial index of its list. */
  lemma {:induction false} ReplayExact(
    settings: Settings, servers: seq<Server>, states: seq<Balancer>, events: seq<Event>, k: nat, p: Proto, n: nat)
    requires IsRun(states, events) && states[0] == Build(settings, servers) && n < |states|
    ensures states[n].settings == settings && 0 < |states[n].contexts|
    ensures k < |states[n].contexts| ==>
      var c := states[n].contexts[k];
      c.At(p) == Replay(NewSide(settings, c.servers, p), Trace(states, events, k, p, n))
  {
    assert |states| == |events| + 1;
    BuildIsNew(settings, servers, p);
    assert |Build(settings, servers).contexts| == 1 && Build(settings, servers).settings == settings;
    hide IsRun, ContextsFit, Possible, Happen, Meaning, Next, Build, NewSide;
    if n > 0 {
      var b, e := states[n - 1], events[n - 1];
      RunStep(states, events, n - 1);
      ReplayExact(settings, servers, states, events, k, p, n - 1);
      HappenNew(b, e, k, p);
      if k < |b.contexts| {
        HappenMeans(b, e, k, p);
        MeaningIsShort(b, e, k, p);
        ReplayMore(
          NewSide(settings, b.contexts[k].servers, p), Trace(states, events, k, p, n - 1), Meaning(b, e, k, p));
      } else {
        TraceBefore(settings, servers, states, events, k, p, n - 1);
      }
    }
  }

  /** UDP does not depend on TCP weights: lists that agree on modes and UDP weights give the same UDP records and
      index after the same UDP probes and selections, in any two runs. */
  lemma UdpIgnoresTcpWeights(
    settings: Settings, servers: seq<Server>, states: seq<Balancer>, events: seq<Event>, k: nat, n: nat,
    servers': seq<Server>, states': seq<Balancer>, events': seq<Event>, k': nat, n': nat)
    requires IsRun(states, events) && states[0] == Build(settings, servers) && n < |states|
    requires IsRun(states', events') && states'[0] == Build(settings, servers') && n' < |states'|
    requires k < |states[n].contexts| && k' < |states'[n'].contexts|
    requires var list, list' := states[n].contexts[k].servers, states'[n'].contexts[k'].servers;
      && |list| == |list'|
      && forall i | 0 <= i < |list| :: list[i].mode == list'[i].mode && list[i].udpWeight == list'[i].udpWeight
    requires Trace(states, events, k, Udp, n) == Trace(states', events', k', Udp, n')
    ensures states[n].contexts[k].udp == states'[n'].contexts[k'].udp
  {
    ReplayExact(settings, servers, states, events, k, Udp, n);
    ReplayExact(settings, servers', states', events', k', Udp, n');
    hide IsRun, Replay, Trace;
    UdpStart(settings, states[n].contexts[k].servers, states'[n'].contexts[k'].servers);
  }

  lemma UdpStart(settings: Settings, list: seq<Server>, list': seq<Server>)
    requires |list| == |list'|
    requires forall i | 0 <= i < |list| :: list[i].mode == list'[i].mode && list[i].udpWeight == list'[i].udpWeight
    ensures NewSide(settings, list, Udp) == NewSide(settings, list', Udp)
  {
    assert forall i | 0 <= i < |list| :: Enabled(list[i], Udp) == Enabled(list'[i], Udp);
    hide Enabled, FirstEnabled, NewStat;
    assert IsInitialBest(list', settings.mode, Udp, InitialBest(list, settings.mode, Udp));
  }

  /** And TCP does not depend on UDP weights. */
  lemma TcpIgnoresUdpWeights(
    settings: Settings, servers: seq<Server>, states: seq<Balancer>, events: seq<Event>, k: nat, n: nat,
    servers': seq<Server>, states': seq<Balancer>, events': seq<Event>, k': nat, n': nat)
    requires IsRun(states, events) && states[0] == Build(settings, servers) && n < |states|
    requires IsRun(states', events') && states'[0] == Build(settings, servers') && n' < |states'|
    requires k < |states[n].contexts| && k' < |states'[n'].contexts|
    requires var list, list' := states[n].contexts[k].servers, states'[n'].contexts[k'].servers;
      && |list| == |list'|
      && forall i | 0 <= i < |list| :: list[i].mode == list'[i].mode && list[i].tcpWeight == list'[i].tcpWeight
    requires Trace(states, events, k, Tcp, n) == Trace(states', events', k', Tcp, n')
    ensures states[n].contexts[k].tcp == states'[n'].contexts[k'].tcp
  {
    ReplayExact(settings, servers, states, events, k, Tcp, n);
    ReplayExact(settings, servers', states', events', k', Tcp, n');
    hide IsRun, Replay, Trace;
    TcpStart(settings, states[n].contexts[k].servers, states'[n'].contexts[k'].servers);
  }

  lemma TcpStart(settings: Settings, list: seq<Server>, list': seq<Server>)
    requires |list| == |list'|
    requires forall i | 0 <= i < |list| :: list[i].mode == list'[i].mode && list[i].tcpWeight == list'[i].tcpWeight
    ensures NewSide(settings, list, Tcp) == NewSide(settings, list', Tcp)
  {
    assert forall i | 0 <= i < |list| :: Enabled(list[i], Tcp) == Enabled(list'[i], Tcp);
    hide Enabled, FirstEnabled, NewStat;
    assert IsInitialBest(list', settings.mode, Tcp, InitialBest(list, settings.mode, Tcp));
  }

  // ------------------------------------------------------------------ usable servers, by their own fields

  lemma MembersBelow(servers: seq<Server>, mode: Mode, p: Proto, n: nat, i: nat)
    requires n <= |servers| && i < |Probed(servers, mode, p, n)|
    ensures Probed(servers, mode, p, n)[i] < n
  {
    hide Enabled, Serves;
    assert Probed(servers, mode, p, n)[i] in Probed(servers, mode, p, n);
  }

  lemma {:induction false} ProbedIncreasing(servers: seq<Server>, mode: Mode, p: Proto, n: nat, i: nat, j: nat)
    requires n <= |servers| && i < j < |Probed(servers, mode, p, n)|
    ensures Probed(servers, mode, p, n)[i] < Probed(servers, mode, p, n)[j]
  {
    ProbedNone(servers, mode);
    hide Enabled, Serves, Probed;
    if n > 0 {
      ProbedNext(servers, mode, p, n - 1);
      if j < |Probed(servers, mode, p, n - 1)| {
        ProbedIncreasing(servers, mode, p, n - 1, i, j);
      } else {
        MembersBelow(servers, mode, p, n - 1, i);
      }
    }
  }

  predicate ProbedAt(servers: seq<Server>, mode: Mode, p: Proto, i: nat) {
    i < |servers| && Serves(mode, p) && Enabled(servers[i], p)
  }

  /** How many servers a check probes, told by the servers. */
  lemma ProbedCount(servers: seq<Server>, mode: Mode, p: Proto)
    ensures var list := Probed(servers, mode, p, |servers|);
      && (|list| <= 1 <==>
        forall i: nat, j: nat | ProbedAt(servers, mode, p, i) && ProbedAt(servers, mode, p, j) :: i == j)
      && (|list| >= 1 <==> exists i: nat :: ProbedAt(servers, mode, p, i))
  {
    hide Enabled, Serves;
    var list := Probed(servers, mode, p, |servers|);
    assert forall i: nat :: i in list <==> ProbedAt(servers, mode, p, i);
    if |list| > 1 {
      ProbedIncreasing(servers, mode, p, |servers|, 0, 1);
    }
    if |list| >= 1 {
      assert list[0] in list;
    }
    hide Probed, ProbedAt;
    if |list| > 1 {
      assert list[0] in list && list[1] in list;
    } else if |list| == 1 {
      assert list == [list[0]];
    }
  }

  predicate OneTcp(servers: seq<Server>) {
    forall i, j | 0 <= i < |servers| && 0 <= j < |servers| && TcpOk(servers[i]) && TcpOk(servers[j]) :: i == j
  }

  predicate OneUdp(servers: seq<Server>) {
    forall i, j | 0 <= i < |servers| && 0 <= j < |servers| && UdpOk(servers[i]) && UdpOk(servers[j]) :: i == j
  }

  /** When the best TCP server stays usable: the first server is one; or TCP is served and either some TCP server
      weighs more than `10000 / u32::MAX`, or there is just one and, if best servers are checked by themselves, no
      two UDP servers to check. */
  predicate KeepsTcp(servers: seq<Server>, mode: Mode, best: bool) {
    || (servers != [] && TcpOk(servers[0]))
    || (&& mode != UdpOnly && (exists s <- servers :: TcpOk(s))
        && (|| (exists s <- servers :: TcpOk(s) && 4294967295.0 * s.tcpWeight > 10000.0)
            || (OneTcp(servers) && (best ==> mode == TcpOnly || OneUdp(servers)))))
  }

  /** The same for UDP. */
  predicate KeepsUdp(servers: seq<Server>, mode: Mode, best: bool) {
    || (servers != [] && UdpOk(servers[0]))
    || (&& mode != TcpOnly && (exists s <- servers :: UdpOk(s))
        && (|| (exists s <- servers :: UdpOk(s) && 4294967295.0 * s.udpWeight > 10000.0)
            || (OneUdp(servers) && (best ==> mode == UdpOnly || OneTcp(servers)))))
  }

  lemma AnchoredExact(servers: seq<Server>, mode: Mode)
    ensures Anchored(servers, mode, Tcp) <==>
      || (servers != [] && TcpOk(servers[0]))
      || (mode != UdpOnly && exists s <- servers :: TcpOk(s) && 4294967295.0 * s.tcpWeight > 10000.0)
    ensures Anchored(servers, mode, Udp) <==>
      || (servers != [] && UdpOk(servers[0]))
      || (mode != TcpOnly && exists s <- servers :: UdpOk(s) && 4294967295.0 * s.udpWeight > 10000.0)
  {
    ServesExact(mode);
    forall i | 0 <= i < |servers|
      ensures Enabled(servers[i], Tcp) <==> TcpOk(servers[i])
      ensures Enabled(servers[i], Udp) <==> UdpOk(servers[i])
      ensures Heavy(servers[i], Tcp) <==> 4294967295.0 * servers[i].tcpWeight > 10000.0
      ensures Heavy(servers[i], Udp) <==> 4294967295.0 * servers[i].udpWeight > 10000.0
    {
      EnabledExact(servers[i]);
    }
    hide Enabled, TcpOk, UdpOk, Serves, Heavy;
  }

  lemma CountExact(servers: seq<Server>, mode: Mode)
    ensures |Probed(servers, mode, Tcp, |servers|)| <= 1 <==> mode == UdpOnly || OneTcp(servers)
    ensures |Probed(servers, mode, Udp, |servers|)| <= 1 <==> mode == TcpOnly || OneUdp(servers)
    ensures |Probed(servers, mode, Tcp, |servers|)| >= 1 <==>
      mode != UdpOnly && exists s <- servers :: TcpOk(s)
    ensures |Probed(servers, mode, Udp, |servers|)| >= 1 <==>
      mode != TcpOnly && exists s <- servers :: UdpOk(s)
  {
    ProbedCount(servers, mode, Tcp);
    ProbedCount(servers, mode, Udp);
    ServesExact(mode);
    forall i: nat | i < |servers|
      ensures ProbedAt(servers, mode, Tcp, i) <==> mode != UdpOnly && TcpOk(servers[i])
      ensures ProbedAt(servers, mode, Udp, i) <==> mode != TcpOnly && UdpOk(servers[i])
    {
      EnabledExact(servers[i]);
    }
    assert forall i: nat, p | i >= |servers| :: !ProbedAt(servers, mode, p, i);
    hide ProbedAt, TcpOk, UdpOk, Probed;
  }

  /** A check of all servers probes, for each protocol with more than one server, all of them, and selects for these
      protocols; with no such protocol there is no check. */
  lemma StartAllExact(c: Context)
    ensures var t := StartAll(c);
      var tcp, udp := c.mode != UdpOnly && !OneTcp(c.servers), c.mode != TcpOnly && !OneUdp(c.servers);
      && (t.Checking? <==> tcp || udp)
      && (t.Checking? ==>
        && t.tcp == tcp && t.udp == udp
        && (forall i: nat :: (Tcp, i) in t.pending <==> tcp && i < |c.servers| && TcpOk(c.servers[i]))
        && (forall i: nat :: (Udp, i) in t.pending <==> udp && i < |c.servers| && UdpOk(c.servers[i])))
  {
    CountExact(c.servers, c.mode);
    ServesExact(c.mode);
    forall i | 0 <= i < |c.servers|
      ensures Enabled(c.servers[i], Tcp) <==> TcpOk(c.servers[i])
      ensures Enabled(c.servers[i], Udp) <==> UdpOk(c.servers[i])
    {
      EnabledExact(c.servers[i]);
    }
    hide Enabled, TcpOk, UdpOk, Serves, OneTcp, OneUdp;
  }

  /** A check of the best servers probes those that take clients, and selects for their protocols. */
  lemma StartBestExact(c: Context)
    requires c.WellFormed()
    ensures StartBest(c).Idle? <==> c.servers == []
    ensures c.servers != [] ==>
      var t := StartBest(c);
      && (t.tcp <==> c.mode != UdpOnly && TcpOk(c.servers[c.tcp.best]))
      && (t.udp <==> c.mode != TcpOnly && UdpOk(c.servers[c.udp.best]))
      && t.pending == (if t.tcp then {(Tcp, c.tcp.best)} else {}) + (if t.udp then {(Udp, c.udp.best)} else {})
  {
    ServesExact(c.mode);
    if c.servers != [] {
      EnabledExact(c.servers[c.tcp.best]);
      EnabledExact(c.servers[c.udp.best]);
    }
    hide Enabled, TcpOk, UdpOk, Serves;
  }

  /** What each step does to the two checks, and when checks of the best servers may begin. */
  lemma TasksExact(c: Context, a: Action)
    requires c.WellFormed() && CanStep(c, a)
    ensures var d := Step(c, a);
      && d.all == (
           if a == Start(AllServers) then StartAll(c)
           else if a == Finish(AllServers) || a == Abort then Idle
           else if a.Push? && a.task == AllServers then
             c.all.(pending := c.all.pending - {(a.proto, a.idx)})
           else c.all)
      && d.bestOnly == (
           if a == Start(BestServer) then StartBest(c)
           else if a == Finish(BestServer) || a == Abort then Idle
           else if a.Push? && a.task == BestServer then
             c.bestOnly.(pending := c.bestOnly.pending - {(a.proto, a.idx)})
           else c.bestOnly)
      && d.checked == (c.checked || a == Finish(AllServers))
  {
    hide StartAll, StartBest, Serves, SelectSide;
    match a
    case Push(t, p, i, score, now) =>
      StepIsPush(c, t, p, i, score, now);
      hide PushTo, Step;
    case _ =>
  }

  lemma KeepsExact(servers: seq<Server>, mode: Mode, best: bool)
    ensures KeepsUsable(servers, mode, Tcp, best) <==> KeepsTcp(servers, mode, best)
    ensures KeepsUsable(servers, mode, Udp, best) <==> KeepsUdp(servers, mode, best)
  {
    AnchoredExact(servers, mode);
    CountExact(servers, mode);
    hide Anchored, Probed, OneTcp, OneUdp, TcpOk, UdpOk;
  }

  /** The best TCP server takes TCP clients. */
  predicate TcpUsable(c: Context) {
    c.tcp.best < |c.servers| && TcpOk(c.servers[c.tcp.best])
  }

  predicate UdpUsable(c: Context) {
    c.udp.best < |c.servers| && UdpOk(c.servers[c.udp.best])
  }

  lemma UsableExact(c: Context)
    ensures Usable(c, Tcp) <==> TcpUsable(c)
    ensures Usable(c, Udp) <==> UdpUsable(c)
  {
    forall s: Server
      ensures Enabled(s, Tcp) <==> TcpOk(s)
      ensures Enabled(s, Udp) <==> UdpOk(s)
    {
      EnabledExact(s);
    }
    hide Enabled, TcpOk, UdpOk;
  }

  /** For which server lists the best TCP server takes TCP clients after every run of the checkers, told by modes and
      weights: exactly those of `KeepsTcp`. */
  lemma TcpAlwaysUsableIff(servers: seq<Server>, mode: Mode, maxRtt: u32, window: nat, best: bool)
    requires maxRtt > 0
    requires forall s <- servers :: 0.0 <= s.tcpWeight <= 1.0 && 0.0 <= s.udpWeight <= 1.0
    ensures KeepsTcp(servers, mode, best) <==>
      forall actions, d | StepsTo(NewContext(servers, mode, maxRtt, window), actions, d) && Allowed(actions, best) ::
        TcpUsable(d)
  {
    AllWeighted(servers);
    hide StepsTo, Weighted, KeepsUsable, NewContext, Allowed, Usable, KeepsTcp, TcpUsable, Paced;
    AlwaysUsableIff(servers, mode, maxRtt, window, Tcp, best, 0);
    KeepsExact(servers, mode, best);
    forall d: Context
      ensures Usable(d, Tcp) <==> TcpUsable(d)
    {
      UsableExact(d);
    }
  }

  /** The same for UDP. */
  lemma UdpAlwaysUsableIff(servers: seq<Server>, mode: Mode, maxRtt: u32, window: nat, best: bool)
    requires maxRtt > 0
    requires forall s <- servers :: 0.0 <= s.tcpWeight <= 1.0 && 0.0 <= s.udpWeight <= 1.0
    ensures KeepsUdp(servers, mode, best) <==>
      forall actions, d | StepsTo(NewContext(servers, mode, maxRtt, window), actions, d) && Allowed(actions, best) ::
        UdpUsable(d)
  {
    AllWeighted(servers);
    hide StepsTo, Weighted, KeepsUsable, NewContext, Allowed, Usable, KeepsUdp, UdpUsable, Paced;
    AlwaysUsableIff(servers, mode, maxRtt, window, Udp, best, 0);
    KeepsExact(servers, mode, best);
    forall d: Context
      ensures Usable(d, Udp) <==> UdpUsable(d)
    {
      UsableExact(d);
    }
  }

  lemma AllWeighted(servers: seq<Server>)
    requires forall s <- servers :: 0.0 <= s.tcpWeight <= 1.0 && 0.0 <= s.udpWeight <= 1.0
    ensures forall i | 0 <= i < |servers| :: Weighted(servers[i])
  {
  }

  /** In every run of the balancer, replacements, leftovers and reported failures included, a context whose mode
      serves a protocol and whose list has a server for it keeps a best server that takes its clients, if its first
      server does or one that does weighs more than `10000 / u32::MAX`. */
  lemma BestServersTakeClients(
    settings: Settings, servers: seq<Server>, states: seq<Balancer>, events: seq<Event>, n: nat, k: nat)
    requires settings.maxRtt > 0
    requires forall s <- servers :: 0.0 <= s.tcpWeight <= 1.0 && 0.0 <= s.udpWeight <= 1.0
    requires IsRun(states, events) && states[0] == Build(settings, servers) && n < |states|
    requires k < |states[n].contexts|
    ensures var c := states[n].contexts[k];
      && (c.mode != UdpOnly && (exists s <- c.servers :: TcpOk(s))
          && (TcpOk(c.servers[0]) || exists s <- c.servers :: TcpOk(s) && 4294967295.0 * s.tcpWeight > 10000.0)
          ==> TcpUsable(c))
      && (c.mode != TcpOnly && (exists s <- c.servers :: UdpOk(s))
          && (UdpOk(c.servers[0]) || exists s <- c.servers :: UdpOk(s) && 4294967295.0 * s.udpWeight > 10000.0)
          ==> UdpUsable(c))
  {
    AllWeighted(servers);
    hide IsRun, Weighted, SomeProbed, Anchored, Enabled, TcpOk, UdpOk, Build;
    BestServerUsable(settings, servers, states, events, n, k, Tcp);
    BestServerUsable(settings, servers, states, events, n, k, Udp);
    var c := states[n].contexts[k];
    AnchoredExact(c.servers, c.mode);
    SomeProbedExact(c.servers, c.mode);
    UsableExact(c);
  }

  lemma SomeProbedExact(servers: seq<Server>, mode: Mode)
    ensures SomeProbed(servers, mode, Tcp) <==> mode != UdpOnly && exists s <- servers :: TcpOk(s)
    ensures SomeProbed(servers, mode, Udp) <==> mode != TcpOnly && exists s <- servers :: UdpOk(s)
  {
    ServesExact(mode);
    forall i | 0 <= i < |servers|
      ensures Enabled(servers[i], Tcp) <==> TcpOk(servers[i])
      ensures Enabled(servers[i], Udp) <==> UdpOk(servers[i])
    {
      EnabledExact(servers[i]);
    }
    hide Enabled, TcpOk, UdpOk, Serves;
  }

  // ------------------------------------------------------------------ the context in use

  /** The context the latest replacement put in use, or the first one. */
  function LatestSwap(events: seq<Event>): nat {
    if events == [] then 0
    else
      var e := events[|events| - 1];
      if e.Swap? then e.which else LatestSwap(events[..|events| - 1])
  }

  /** In every run the context in use is the one put in use last; and the servers handed out are the best TCP servers
      of the contexts in use when they were. */
  lemma {:induction false} CurrentExact(
    settings: Settings, servers: seq<Server>, states: seq<Balancer>, events: seq<Event>, n: nat)
    requires IsRun(states, events) && states[0] == Build(settings, servers) && n < |states|
    ensures states[n].current == LatestSwap(events[..n])
    ensures forall x :: x in states[n].handed <==> WasHanded(states, events, n, x)
  {
    assert |states| == |events| + 1;
    assert Build(settings, servers).current == 0 && Build(settings, servers).handed == {};
    NothingHanded(states, events);
    hide IsRun, ContextsFit, Possible, HandsOut, Build, Happen, WasHanded;
    if n > 0 {
      RunStep(states, events, n - 1);
      CurrentExact(settings, servers, states, events, n - 1);
      assert events[..n][..n - 1] == events[..n - 1];
      HandedMore(states[n - 1], events[n - 1]);
      WasHandedMore(states, events, n);
    }
  }

  lemma NothingHanded(states: seq<Balancer>, events: seq<Event>)
    requires |events| <= |states|
    ensures forall x :: !WasHanded(states, events, 0, x)
  {
  }

  lemma WasHandedMore(states: seq<Balancer>, events: seq<Event>, n: nat)
    requires 0 < n <= |events| <= |states|
    ensures forall x :: WasHanded(states, events, n, x) <==>
      WasHanded(states, events, n - 1, x) || (events[n - 1] == HandOut && HandsOut(states[n - 1], x.0, x.1))
  {
    hide HandsOut;
  }

  /** One of the first `n` events hands out the server `x.1` of context `x.0`. */
  predicate WasHanded(states: seq<Balancer>, events: seq<Event>, n: nat, x: (nat, nat))
    requires n <= |events| <= |states|
  {
    exists i :: 0 <= i < n && events[i] == HandOut && HandsOut(states[i], x.0, x.1)
  }

  predicate HandsOut(b: Balancer, k: nat, i: nat) {
    k == b.current < |b.contexts| && i == b.contexts[k].tcp.best
  }

  lemma HandedMore(b: Balancer, e: Event)
    requires ContextsFit(b) && Possible(b, e)
    ensures Happen(b, e).current == if e.Swap? then e.which else b.current
    ensures forall x :: x in Happen(b, e).handed <==> x in b.handed || (e == HandOut && HandsOut(b, x.0, x.1))
  {
    hide Step, PushTo, Plausible, CanStep, ReportPlausible;
  }
}
