/** Choosing the best server, `ping_balancer.rs`: periodic checks of all servers, checks of the best one,
    and replacement of the server list. */
module PingBalancer {
  import opened Prelude
  import opened Samples
  import opened ScoreHistories
  import opened ServerStats

  datatype Mode = TcpOnly | TcpAndUdp | UdpOnly

  datatype Proto = Tcp | Udp

  predicate Serves(mode: Mode, p: Proto) {
    match p
    case Tcp => mode == TcpOnly || mode == TcpAndUdp
    case Udp => mode == UdpOnly || mode == TcpAndUdp
  }

  datatype Server = Server(mode: Mode, tcpWeight: real, udpWeight: real)

  function WeightFor(server: Server, p: Proto): real {
    match p
    case Tcp => server.tcpWeight
    case Udp => server.udpWeight
  }

  predicate Enabled(server: Server, p: Proto) {
    Serves(server.mode, p) && WeightFor(server, p) > 0.0
  }

  /** The server takes TCP clients. */
  predicate TcpOk(server: Server) {
    server.mode != UdpOnly && server.tcpWeight > 0.0
  }

  /** The server takes UDP clients. */
  predicate UdpOk(server: Server) {
    server.mode != TcpOnly && server.udpWeight > 0.0
  }

  /** Each protocol is decided by its own weight. */
  lemma EnabledExact(server: Server)
    ensures Enabled(server, Tcp) <==> TcpOk(server)
    ensures Enabled(server, Udp) <==> UdpOk(server)
  {
  }

  lemma ServesExact(mode: Mode)
    ensures Serves(mode, Tcp) <==> mode != UdpOnly
    ensures Serves(mode, Udp) <==> mode != TcpOnly
  {
  }

  // ------------------------------------------------------------------ selection

  /** `k` is the first index of the smallest score. */
  predicate IsFirstMinimum(scores: seq<u32>, k: nat) {
    && k < |scores|
    && (forall j | 0 <= j < |scores| :: scores[k] <= scores[j])
    && (forall j | 0 <= j < k :: scores[k] < scores[j])
  }

  function FirstMinimum(scores: seq<u32>): (k: nat)
    requires scores != []
    ensures IsFirstMinimum(scores, k)
  {
    if |scores| == 1 then 0
    else
      var n := |scores| - 1;
      var k := FirstMinimum(scores[..n]);
      if scores[n] < scores[k] then n else k
  }

  /** The loop both checks run over the scores. */
  method SelectBest(scores: seq<u32>) returns (bestIdx: nat)
    requires scores != []
    ensures bestIdx == FirstMinimum(scores)
    ensures IsFirstMinimum(scores, bestIdx)
  {
    bestIdx := 0;
    var bestScore: u32 := U32_MAX;
    for idx := 0 to |scores|
      invariant bestIdx < |scores| && (bestScore == U32_MAX ==> bestIdx == 0)
      invariant bestScore < U32_MAX ==> bestIdx < idx && scores[bestIdx] == bestScore
      invariant forall j | 0 <= j < idx :: bestScore <= scores[j]
      invariant forall j | 0 <= j < idx && j < bestIdx :: bestScore < scores[j]
    {
      if scores[idx] < bestScore {
        bestIdx := idx;
        bestScore := scores[idx];
      }
    }
    assert IsFirstMinimum(scores, bestIdx);
  }

  // ------------------------------------------------------------------ one context

  /** Statistics of a server for one protocol and its published score. */
  datatype Record = Record(stat: Stat, score: u32)

  /** The protocol's records and the index of its best server. */
  datatype Side = Side(records: seq<Record>, best: nat) {
    predicate Fits(n: nat, maxRtt: u32) {
      && |records| == n
      && (n > 0 ==> best < n)
      && forall i | 0 <= i < n :: records[i].stat.maxRtt == maxRtt
    }
  }

  /** A check in progress: probes not yet pushed, and the protocols it selects for at the end. */
  datatype Task = Idle | Checking(pending: set<(Proto, nat)>, tcp: bool, udp: bool)

  /** `checked` says that a check of all servers has been finished; best-server checks wait for that. */
  datatype Context = Context(
    servers: seq<Server>,
    mode: Mode,
    maxRtt: u32,
    tcp: Side,
    udp: Side,
    all: Task,
    bestOnly: Task,
    checked: bool)
  {
    function At(p: Proto): Side {
      match p
      case Tcp => tcp
      case Udp => udp
    }

    function Put(p: Proto, side: Side): Context {
      match p
      case Tcp => this.(tcp := side)
      case Udp => this.(udp := side)
    }

    predicate WellFormed() {
      && maxRtt > 0
      && tcp.Fits(|servers|, maxRtt) && udp.Fits(|servers|, maxRtt)
      && InList(all) && InList(bestOnly)
    }

    predicate InList(t: Task) {
      t.Checking? ==> servers != [] && forall x <- t.pending :: x.1 < |servers|
    }
  }

  function Scores(records: seq<Record>): (scores: seq<u32>)
    ensures |scores| == |records| && forall i | 0 <= i < |records| :: scores[i] == records[i].score
  {
    seq(|records|, i requires 0 <= i < |records| => records[i].score)
  }

  /** The servers a check probes for a protocol, among the first `n`. */
  function Probed(servers: seq<Server>, mode: Mode, p: Proto, n: nat): (list: seq<nat>)
    requires n <= |servers|
    ensures forall i: nat :: i in list <==> i < n && Serves(mode, p) && Enabled(servers[i], p)
  {
    if n == 0 then []
    else Probed(servers, mode, p, n - 1) + if Serves(mode, p) && Enabled(servers[n - 1], p) then [n - 1] else []
  }

  lemma ProbedNone(servers: seq<Server>, mode: Mode)
    ensures forall p: Proto :: Probed(servers, mode, p, 0) == []
  {
  }

  lemma ProbedNext(servers: seq<Server>, mode: Mode, p: Proto, n: nat)
    requires n < |servers|
    ensures Probed(servers, mode, p, n + 1) ==
      Probed(servers, mode, p, n) + if Serves(mode, p) && Enabled(servers[n], p) then [n] else []
  {
    hide Enabled, Serves;
  }

  function FirstEnabled(servers: seq<Server>, p: Proto, from: nat): (k: Option<nat>)
    requires from <= |servers|
    ensures k.Some? ==> from <= k.value < |servers| && Enabled(servers[k.value], p)
    ensures k.Some? ==> forall i | from <= i < k.value :: !Enabled(servers[i], p)
    ensures k.None? ==> forall i | from <= i < |servers| :: !Enabled(servers[i], p)
    decreases |servers| - from
  {
    if from == |servers| then None
    else if Enabled(servers[from], p) then Some(from)
    else FirstEnabled(servers, p, from + 1)
  }

  predicate NoneEnabled(servers: seq<Server>, p: Proto, n: nat)
    requires n <= |servers|
  {
    forall i | 0 <= i < n :: !Enabled(servers[i], p)
  }

  /** `k` is the first enabled server, or 0 if there is none or the mode does not serve the protocol. */
  predicate IsInitialBest(servers: seq<Server>, mode: Mode, p: Proto, k: nat) {
    if Serves(mode, p) && !NoneEnabled(servers, p, |servers|)
    then k < |servers| && Enabled(servers[k], p) && NoneEnabled(servers, p, k)
    else k == 0
  }

  /** The index chosen when a context is built. */
  function InitialBest(servers: seq<Server>, mode: Mode, p: Proto): (k: nat)
    ensures IsInitialBest(servers, mode, p, k)
  {
    if !Serves(mode, p) then 0
    else
      match FirstEnabled(servers, p, 0)
      case Some(k) => k
      case None => 0
  }

  lemma InitialBestExact(servers: seq<Server>, mode: Mode)
    ensures var k := InitialBest(servers, mode, Tcp);
      if mode != UdpOnly && exists s <- servers :: TcpOk(s)
      then k < |servers| && TcpOk(servers[k]) && forall i | 0 <= i < k :: !TcpOk(servers[i])
      else k == 0
    ensures var k := InitialBest(servers, mode, Udp);
      if mode != TcpOnly && exists s <- servers :: UdpOk(s)
      then k < |servers| && UdpOk(servers[k]) && forall i | 0 <= i < k :: !UdpOk(servers[i])
      else k == 0
  {
    ServesExact(mode);
    forall s: Server
      ensures Enabled(s, Tcp) <==> TcpOk(s)
      ensures Enabled(s, Udp) <==> UdpOk(s)
    {
      EnabledExact(s);
    }
    hide Enabled, TcpOk, UdpOk, Serves, FirstEnabled;
  }

  method FindBestIdx(servers: seq<Server>, mode: Mode) returns (bestTcpIdx: nat, bestUdpIdx: nat)
    ensures bestTcpIdx == InitialBest(servers, mode, Tcp) && bestUdpIdx == InitialBest(servers, mode, Udp)
    ensures if mode != UdpOnly && exists s <- servers :: TcpOk(s)
      then bestTcpIdx < |servers| && TcpOk(servers[bestTcpIdx]) && forall i | 0 <= i < bestTcpIdx :: !TcpOk(servers[i])
      else bestTcpIdx == 0
    ensures if mode != TcpOnly && exists s <- servers :: UdpOk(s)
      then bestUdpIdx < |servers| && UdpOk(servers[bestUdpIdx]) && forall i | 0 <= i < bestUdpIdx :: !UdpOk(servers[i])
      else bestUdpIdx == 0
  {
    hide TcpOk, UdpOk, Enabled;
    InitialBestExact(servers, mode);
    if servers == [] {
      return 0, 0;
    }
    bestTcpIdx := 0;
    bestUdpIdx := 0;
    if Serves(mode, Tcp) {
      bestTcpIdx := FindFirst(servers, Tcp);
    }
    if Serves(mode, Udp) {
      bestUdpIdx := FindFirst(servers, Udp);
    }
  }

  method FindFirst(servers: seq<Server>, p: Proto) returns (bestIdx: nat)
    ensures FirstEnabled(servers, p, 0) ==
      if bestIdx < |servers| && Enabled(servers[bestIdx], p) then Some(bestIdx) else None
    ensures FirstEnabled(servers, p, 0).None? ==> bestIdx == 0
  {
    bestIdx := 0;
    for idx := 0 to |servers|
      invariant bestIdx == 0
      invariant FirstEnabled(servers, p, 0) == FirstEnabled(servers, p, idx)
    {
      if Enabled(servers[idx], p) {
        return idx;
      }
    }
  }

  function NewRecords(servers: seq<Server>, p: Proto, maxRtt: u32, window: nat): (records: seq<Record>)
    ensures |records| == |servers|
    ensures forall i | 0 <= i < |servers| ::
      records[i] == Record(NewStat(WeightFor(servers[i], p), maxRtt, window), U32_MAX)
  {
    seq(|servers|, i requires 0 <= i < |servers| => Record(NewStat(WeightFor(servers[i], p), maxRtt, window), U32_MAX))
  }

  function NewContext(servers: seq<Server>, mode: Mode, maxRtt: u32, window: nat): Context {
    Context(servers, mode, maxRtt,
            Side(NewRecords(servers, Tcp, maxRtt, window), InitialBest(servers, mode, Tcp)),
            Side(NewRecords(servers, Udp, maxRtt, window), InitialBest(servers, mode, Udp)),
            Idle, Idle, false)
  }

  // ------------------------------------------------------------------ steps of one context

  datatype TaskId = AllServers | BestServer

  datatype Action =
    | Start(task: TaskId)
    | Push(task: TaskId, proto: Proto, idx: nat, score: Score, now: int)
    | Finish(task: TaskId)
    | Abort

  function TaskOf(c: Context, t: TaskId): Task {
    match t
    case AllServers => c.all
    case BestServer => c.bestOnly
  }

  function WithTask(c: Context, t: TaskId, task: Task): Context {
    match t
    case AllServers => c.(all := task)
    case BestServer => c.(bestOnly := task)
  }

  /** What a check of all servers probes. */
  function StartAll(c: Context): (t: Task)
    ensures c.InList(t)
  {
    var tcp := Probed(c.servers, c.mode, Tcp, |c.servers|);
    var udp := Probed(c.servers, c.mode, Udp, |c.servers|);
    var checkTcp, checkUdp := |tcp| > 1, |udp| > 1;
    if !checkTcp && !checkUdp then Idle
    else
      Checking(
        (if checkTcp then set i <- tcp :: (Tcp, i) else {}) + (if checkUdp then set i <- udp :: (Udp, i) else {}),
        checkTcp, checkUdp)
  }

  /** What a check of the best servers probes. */
  function StartBest(c: Context): (t: Task)
    requires c.WellFormed()
    ensures c.InList(t)
  {
    if c.servers == [] then Idle
    else
      var checkTcp := Serves(c.mode, Tcp) && Enabled(c.servers[c.tcp.best], Tcp);
      var checkUdp := Serves(c.mode, Udp) && Enabled(c.servers[c.udp.best], Udp);
      Checking((if checkTcp then {(Tcp, c.tcp.best)} else {}) + (if checkUdp then {(Udp, c.udp.best)} else {}),
               checkTcp, checkUdp)
  }

  function PushSide(side: Side, i: nat, score: Score, now: int, n: nat, maxRtt: u32): (r: Side)
    requires i < n && maxRtt > 0 && side.Fits(n, maxRtt)
    ensures r.Fits(n, maxRtt)
  {
    PushedSettings(side.records[i].stat, score, now);
    var stat := Pushed(side.records[i].stat, score, now);
    side.(records := side.records[i := Record(stat, CastScore(stat))])
  }

  lemma PushedSettings(s: Stat, score: Score, now: int)
    ensures Pushed(s, score, now).maxRtt == s.maxRtt && Pushed(s, score, now).userWeight == s.userWeight
  {
  }

  function PushTo(c: Context, p: Proto, i: nat, score: Score, now: int): (d: Context)
    requires c.WellFormed() && i < |c.servers|
    ensures d.WellFormed() && d.servers == c.servers && d.mode == c.mode && d.all == c.all && d.bestOnly == c.bestOnly
    ensures d.checked == c.checked && d.maxRtt == c.maxRtt
  {
    c.Put(p, PushSide(c.At(p), i, score, now, |c.servers|, c.maxRtt))
  }

  function SelectSide(side: Side): Side
    requires side.records != []
  {
    side.(best := FirstMinimum(Scores(side.records)))
  }

  predicate CanStep(c: Context, a: Action) {
    match a
    case Start(t) => TaskOf(c, t).Idle? && (t == BestServer ==> c.checked)
    case Push(t, p, i, _, _) => TaskOf(c, t).Checking? && (p, i) in TaskOf(c, t).pending
    case Finish(t) => TaskOf(c, t).Checking? && TaskOf(c, t).pending == {}
    case Abort => true
  }

  function FinishTask(c: Context, t: TaskId): (d: Context)
    requires c.WellFormed() && TaskOf(c, t).Checking?
    ensures d.WellFormed()
  {
    var task := TaskOf(c, t);
    var tcp := if Serves(c.mode, Tcp) && task.tcp then SelectSide(c.tcp) else c.tcp;
    var udp := if Serves(c.mode, Udp) && task.udp then SelectSide(c.udp) else c.udp;
    WithTask(c.(tcp := tcp, udp := udp, checked := c.checked || t == AllServers), t, Idle)
  }

  /** One atomic step of a context's checkers. */
  function Step(c: Context, a: Action): (d: Context)
    requires c.WellFormed() && CanStep(c, a)
    ensures d.WellFormed()
  {
    match a
    case Start(AllServers) => c.(all := StartAll(c))
    case Start(BestServer) => c.(bestOnly := StartBest(c))
    case Push(t, p, i, score, now) =>
      var task := TaskOf(c, t);
      assert c.InList(task);
      WithTask(PushTo(c, p, i, score, now), t, task.(pending := task.pending - {(p, i)}))
    case Finish(t) => FinishTask(c, t)
    case Abort => c.(all := Idle, bestOnly := Idle)
  }

  // ------------------------------------------------------------------ what every step keeps

  /** Weights are in [0, 1]. */
  predicate Weighted(server: Server) {
    forall p: Proto :: 0.0 <= WeightFor(server, p) <= 1.0
  }

  /** The score of the server cannot saturate: `10000 / weight` is below `u32::MAX`. */
  predicate Heavy(server: Server, p: Proto) {
    Product(U32_MAX as real, WeightFor(server, p)) > 10000.0
  }

  predicate Probes(server: Server, mode: Mode, p: Proto) {
    Serves(mode, p) && Enabled(server, p)
  }

  predicate SomeProbed(servers: seq<Server>, mode: Mode, p: Proto) {
    exists i :: 0 <= i < |servers| && Probes(servers[i], mode, p)
  }

  predicate SomeHeavy(servers: seq<Server>, mode: Mode, p: Proto) {
    exists i :: 0 <= i < |servers| && Probes(servers[i], mode, p) && Heavy(servers[i], p)
  }

  /** The first server is enabled, or the score of some probed one cannot saturate. */
  predicate Anchored(servers: seq<Server>, mode: Mode, p: Proto) {
    (servers != [] && Enabled(servers[0], p)) || SomeHeavy(servers, mode, p)
  }

  /** When the best server is claimed to be enabled. */
  predicate Claimed(c: Context, p: Proto) {
    SomeProbed(c.servers, c.mode, p) && Anchored(c.servers, c.mode, p)
  }

  /** Servers that are never probed keep the initial score. */
  predicate OnlyProbedScore(servers: seq<Server>, mode: Mode, p: Proto, records: seq<Record>)
    requires |records| == |servers|
  {
    forall i | 0 <= i < |servers| && !Probes(servers[i], mode, p) :: records[i].score == U32_MAX
  }

  ghost predicate StatsInRange(servers: seq<Server>, p: Proto, records: seq<Record>)
    requires |records| == |servers|
  {
    forall i | 0 <= i < |servers| ::
      && InRange(records[i].stat) && records[i].stat.userWeight == WeightFor(servers[i], p)
      && (records[i].score < U32_MAX ==> records[i].score == CastScore(records[i].stat))
  }

  ghost predicate SideSound(c: Context, p: Proto)
    requires c.WellFormed()
  {
    && StatsInRange(c.servers, p, c.At(p).records)
    && (Claimed(c, p) ==>
      OnlyProbedScore(c.servers, c.mode, p, c.At(p).records) && Enabled(c.servers[c.At(p).best], p))
  }

  function Flag(t: Task, p: Proto): bool
    requires t.Checking?
  {
    match p
    case Tcp => t.tcp
    case Udp => t.udp
  }

  /** Server `i` cannot saturate, and is scored or will be before the task selects. */
  predicate Scored(c: Context, p: Proto, t: Task, i: nat)
    requires c.WellFormed() && t.Checking?
  {
    && i < |c.servers| && Probes(c.servers[i], c.mode, p) && Heavy(c.servers[i], p)
    && ((p, i) in t.pending || c.At(p).records[i].score < U32_MAX)
  }

  /** Server `i` cannot saturate and is scored. */
  predicate HeavyScored(c: Context, p: Proto, i: nat)
    requires c.WellFormed()
  {
    && i < |c.servers| && Probes(c.servers[i], c.mode, p) && Heavy(c.servers[i], p)
    && c.At(p).records[i].score < U32_MAX
  }

  ghost predicate TaskSound(c: Context, p: Proto, t: Task)
    requires c.WellFormed()
  {
    t.Checking? ==>
      && (forall i | (p, i) in t.pending :: i < |c.servers| && Probes(c.servers[i], c.mode, p))
      && (Flag(t, p) && SomeHeavy(c.servers, c.mode, p) ==> exists i :: Scored(c, p, t, i))
  }

  predicate ManyProbed(c: Context, p: Proto) {
    |Probed(c.servers, c.mode, p, |c.servers|)| > 1
  }

  /** A check of all servers selects for the protocols with more than one of them, and afterwards a server
      that cannot saturate has a score. */
  ghost predicate CheckSound(c: Context, p: Proto)
    requires c.WellFormed()
  {
    && (c.all.Checking? ==> (Flag(c.all, p) <==> ManyProbed(c, p)))
    && (c.checked && ManyProbed(c, p) && SomeHeavy(c.servers, c.mode, p) ==>
      exists i :: HeavyScored(c, p, i))
  }

  ghost predicate ProtoSound(c: Context, p: Proto)
    requires c.WellFormed()
  {
    SideSound(c, p) && TaskSound(c, p, c.all) && TaskSound(c, p, c.bestOnly) && CheckSound(c, p)
  }

  ghost predicate Sound(c: Context) {
    && c.WellFormed()
    && (forall i | 0 <= i < |c.servers| :: Weighted(c.servers[i]))
    && ProtoSound(c, Tcp) && ProtoSound(c, Udp)
  }

  /** What is assumed of a probe result: the latency is at most the time-out, and the latencies left in the
      window add up in 32 bits. */
  predicate Plausible(c: Context, a: Action)
    requires c.WellFormed() && CanStep(c, a)
  {
    a.Push? ==>
      && c.InList(TaskOf(c, a.task))
      && (a.score.Latency? ==> a.score.ms <= c.maxRtt)
      && Sum(Latencies(Pushed(c.At(a.proto).records[a.idx].stat, a.score, a.now).queue)) <= U32_MAX
  }

  /** Which server a selection takes when only probed servers have scores: an enabled one exactly when some
      score is below the initial one, or the first server is enabled. */
  lemma SelectionEnabledIff(servers: seq<Server>, mode: Mode, p: Proto, records: seq<Record>)
    requires servers != [] && |records| == |servers| && Serves(mode, p)
    requires OnlyProbedScore(servers, mode, p, records)
    ensures Enabled(servers[FirstMinimum(Scores(records))], p) <==>
      Enabled(servers[0], p) || exists i :: 0 <= i < |records| && records[i].score < U32_MAX
  {
    var k := FirstMinimum(Scores(records));
    assert k > 0 ==> Scores(records)[k] < Scores(records)[0] <= U32_MAX;
    if i :| 0 <= i < |records| && records[i].score < U32_MAX {
      assert Scores(records)[k] <= Scores(records)[i];
      assert records[k].score < U32_MAX;
      assert Probes(servers[k], mode, p);
    }
  }

  lemma InitialSound(servers: seq<Server>, mode: Mode, maxRtt: u32, window: nat)
    requires maxRtt > 0 && forall i | 0 <= i < |servers| :: Weighted(servers[i])
    ensures Sound(NewContext(servers, mode, maxRtt, window))
  {
    var c := NewContext(servers, mode, maxRtt, window);
    InitialSide(servers, mode, Tcp, maxRtt, window);
    InitialSide(servers, mode, Udp, maxRtt, window);
    assert c.WellFormed();
  }

  lemma InitialSide(servers: seq<Server>, mode: Mode, p: Proto, maxRtt: u32, window: nat)
    requires maxRtt > 0 && forall i | 0 <= i < |servers| :: Weighted(servers[i])
    ensures var records := NewRecords(servers, p, maxRtt, window);
      && OnlyProbedScore(servers, mode, p, records)
      && StatsInRange(servers, p, records)
      && (servers != [] ==> InitialBest(servers, mode, p) < |servers|)
      && (SomeProbed(servers, mode, p) ==> Enabled(servers[InitialBest(servers, mode, p)], p))
  {
    MaxVarianceIs(maxRtt);
    var records := NewRecords(servers, p, maxRtt, window);
    forall i | 0 <= i < |servers|
      ensures InRange(records[i].stat)
    {
      assert Weighted(servers[i]);
      assert Latencies([]) == [];
    }
  }

  function Started(c: Context, t: TaskId): Task
    requires c.WellFormed()
  {
    if t == AllServers then StartAll(c) else StartBest(c)
  }

  lemma ProbedHas(c: Context, p: Proto, i: nat)
    requires i < |c.servers|
    ensures i in Probed(c.servers, c.mode, p, |c.servers|) <==> Probes(c.servers[i], c.mode, p)
  {
  }

  lemma StartAllSound(c: Context, p: Proto)
    requires c.WellFormed()
    ensures TaskSound(c, p, StartAll(c))
    ensures StartAll(c).Checking? ==> (Flag(StartAll(c), p) <==> ManyProbed(c, p))
  {
    var task := StartAll(c);
    hide Heavy;
    if task.Checking? && Flag(task, p) && SomeHeavy(c.servers, c.mode, p) {
      var i: nat :| i < |c.servers| && Probes(c.servers[i], c.mode, p) && Heavy(c.servers[i], p);
      ProbedHas(c, p, i);
      assert Scored(c, p, task, i);
    }
  }

  lemma OnlyProbed(c: Context, p: Proto, i: nat, j: nat)
    requires i < |c.servers| && j < |c.servers| && !ManyProbed(c, p)
    requires Probes(c.servers[i], c.mode, p) && Probes(c.servers[j], c.mode, p)
    ensures i == j
  {
    ProbedHas(c, p, i);
    ProbedHas(c, p, j);
    hide Probed, Probes;
    var list := Probed(c.servers, c.mode, p, |c.servers|);
    assert list == [list[0]];
  }

  lemma StartBestSound(c: Context, p: Proto)
    requires c.WellFormed() && CheckSound(c, p) && c.checked
    ensures TaskSound(c, p, StartBest(c))
  {
    var task := StartBest(c);
    hide Heavy, Probed;
    if task.Checking? && Flag(task, p) && SomeHeavy(c.servers, c.mode, p) {
      var i: nat :| i < |c.servers| && Probes(c.servers[i], c.mode, p) && Heavy(c.servers[i], p);
      if ManyProbed(c, p) {
        i :| HeavyScored(c, p, i);
      } else {
        OnlyProbed(c, p, i, c.At(p).best);
      }
      assert Scored(c, p, task, i);
    }
  }

  lemma StartSound(c: Context, t: TaskId, p: Proto)
    requires c.WellFormed() && ProtoSound(c, p) && (t == BestServer ==> c.checked)
    ensures TaskSound(c, p, Started(c, t))
    ensures t == AllServers && Started(c, t).Checking? ==> (Flag(Started(c, t), p) <==> ManyProbed(c, p))
  {
    hide TaskSound, CheckSound, SideSound, StartAll, StartBest, ManyProbed;
    if t == AllServers {
      StartAllSound(c, p);
    } else {
      StartBestSound(c, p);
    }
  }

  /** Servers that cannot saturate keep having a score. */
  predicate KeepsHeavy(c: Context, d: Context, p: Proto)
    requires c.WellFormed() && d.WellFormed() && c.servers == d.servers
  {
    forall i | 0 <= i < |c.servers| && Heavy(c.servers[i], p) ::
      c.At(p).records[i].score < U32_MAX ==> d.At(p).records[i].score < U32_MAX
  }

  lemma SameTask(c: Context, d: Context, p: Proto, t: Task)
    requires c.WellFormed() && d.WellFormed() && c.servers == d.servers && c.mode == d.mode
    requires TaskSound(c, p, t) && KeepsHeavy(c, d, p)
    ensures TaskSound(d, p, t)
  {
    hide Heavy, Probes;
    if t.Checking? && Flag(t, p) && SomeHeavy(c.servers, c.mode, p) {
      var i :| Scored(c, p, t, i);
      assert Scored(d, p, t, i);
    }
  }

  lemma KeepsCheck(c: Context, d: Context, p: Proto)
    requires c.WellFormed() && d.WellFormed() && c.servers == d.servers && c.mode == d.mode
    requires CheckSound(c, p) && KeepsHeavy(c, d, p)
    requires d.all.Checking? ==> (Flag(d.all, p) <==> ManyProbed(c, p))
    requires d.checked ==> c.checked || !ManyProbed(c, p) || !SomeHeavy(c.servers, c.mode, p)
    ensures CheckSound(d, p)
  {
    hide Heavy, Probes, Probed;
    if c.checked && ManyProbed(c, p) && SomeHeavy(c.servers, c.mode, p) {
      var i :| HeavyScored(c, p, i);
      assert HeavyScored(d, p, i);
    }
  }

  lemma SameCheck(c: Context, d: Context, p: Proto)
    requires c.WellFormed() && d.WellFormed() && c.servers == d.servers && c.mode == d.mode
    requires CheckSound(c, p) && KeepsHeavy(c, d, p) && d.checked == c.checked
    requires d.all.Checking? ==> c.all.Checking? && Flag(d.all, p) == Flag(c.all, p)
    ensures CheckSound(d, p)
  {
    hide KeepsHeavy, ManyProbed, SomeHeavy;
    KeepsCheck(c, d, p);
  }

  /** A task is still sound without a probe that has been scored. */
  lemma TaskWithout(c: Context, p: Proto, t: Task, q: Proto, i: nat)
    requires c.WellFormed() && TaskSound(c, p, t) && t.Checking? && i < |c.servers|
    requires q == p && Heavy(c.servers[i], p) ==> c.At(p).records[i].score < U32_MAX
    ensures TaskSound(c, p, t.(pending := t.pending - {(q, i)}))
  {
    var u := t.(pending := t.pending - {(q, i)});
    hide Heavy, Probes;
    if Flag(t, p) && SomeHeavy(c.servers, c.mode, p) {
      var j :| Scored(c, p, t, j);
      assert Scored(c, p, u, j);
    }
  }

  lemma PushedStat(s: Stat, score: Score, now: int)
    requires InRange(s) && (score.Latency? ==> score.ms <= s.maxRtt)
    requires Sum(Latencies(Pushed(s, score, now).queue)) <= U32_MAX
    ensures InRange(Pushed(s, score, now))
    ensures Product(U32_MAX as real, s.userWeight) > 10000.0 ==> CastScore(Pushed(s, score, now)) < U32_MAX
  {
    var t := Pushed(s, score, now);
    assert s.userWeight <= Weight(s.(userWeight := s.userWeight));
    PushedSettings(s, score, now);
    assert Weight(t) == Weight(s);
    hide *;
    PushKeepsRange(s, score, now);
    if Product(U32_MAX as real, s.userWeight) > 10000.0 {
      ProductMonotone(U32_MAX as real, s.userWeight, Weight(t));
      ScoreBelowMax(t);
    }
  }

  lemma RecordsUpdated(servers: seq<Server>, mode: Mode, p: Proto, records: seq<Record>, i: nat, r: Record)
    requires |records| == |servers| && i < |servers| && StatsInRange(servers, p, records)
    requires InRange(r.stat) && r.stat.userWeight == WeightFor(servers[i], p) && r.score == CastScore(r.stat)
    ensures StatsInRange(servers, p, records[i := r])
    ensures OnlyProbedScore(servers, mode, p, records) && Probes(servers[i], mode, p) ==>
      OnlyProbedScore(servers, mode, p, records[i := r])
  {
    hide InRange;
  }

  /** A push leaves a sound side, and a score below the initial one if the server cannot saturate. */
  lemma PushedRecord(c: Context, p: Proto, i: nat, score: Score, now: int)
    requires c.WellFormed() && SideSound(c, p) && i < |c.servers|
    requires Claimed(c, p) ==> Probes(c.servers[i], c.mode, p)
    requires score.Latency? ==> score.ms <= c.maxRtt
    requires Sum(Latencies(Pushed(c.At(p).records[i].stat, score, now).queue)) <= U32_MAX
    ensures var d := PushTo(c, p, i, score, now);
      && SideSound(d, p) && KeepsHeavy(c, d, p)
      && (Heavy(c.servers[i], p) ==> d.At(p).records[i].score < U32_MAX)
  {
    var s := c.At(p).records[i].stat;
    var r := Record(Pushed(s, score, now), CastScore(Pushed(s, score, now)));
    PushToIs(c, p, i, score, now);
    assert InRange(s) && s.userWeight == WeightFor(c.servers[i], p) && s.maxRtt == c.maxRtt;
    assert Heavy(c.servers[i], p) <==> Product(U32_MAX as real, s.userWeight) > 10000.0;
    hide *;
    PushedStat(s, score, now);
    PushedSettings(s, score, now);
    RecordReplaced(c, PushTo(c, p, i, score, now), p, i, r);
  }

  lemma RecordReplaced(c: Context, d: Context, p: Proto, i: nat, r: Record)
    requires c.WellFormed() && d.WellFormed() && SideSound(c, p) && i < |c.servers|
    requires d.servers == c.servers && d.mode == c.mode
    requires d.At(p) == c.At(p).(records := c.At(p).records[i := r])
    requires Claimed(c, p) ==> Probes(c.servers[i], c.mode, p)
    requires InRange(r.stat) && r.stat.userWeight == WeightFor(c.servers[i], p) && r.score == CastScore(r.stat)
    requires Heavy(c.servers[i], p) ==> r.score < U32_MAX
    ensures SideSound(d, p) && KeepsHeavy(c, d, p)
    ensures Heavy(c.servers[i], p) ==> d.At(p).records[i].score < U32_MAX
  {
    hide InRange, CastScore, Anchored, SomeProbed, Enabled, Probes, Heavy;
    RecordsUpdated(c.servers, c.mode, p, c.At(p).records, i, r);
    hide StatsInRange, OnlyProbedScore;
  }

  lemma PushToIs(c: Context, p: Proto, i: nat, score: Score, now: int)
    requires c.WellFormed() && i < |c.servers|
    ensures var t := Pushed(c.At(p).records[i].stat, score, now);
      && t.maxRtt > 0
      && PushTo(c, p, i, score, now).At(p) == c.At(p).(records := c.At(p).records[i := Record(t, CastScore(t))])
    ensures forall q: Proto | q != p :: PushTo(c, p, i, score, now).At(q) == c.At(q)
  {
    hide Pushed, CastScore;
    PushedSettings(c.At(p).records[i].stat, score, now);
  }

  lemma SameSide(c: Context, d: Context, p: Proto)
    requires c.WellFormed() && d.WellFormed() && SideSound(c, p)
    requires c.servers == d.servers && c.mode == d.mode && c.At(p) == d.At(p)
    ensures SideSound(d, p) && KeepsHeavy(c, d, p)
  {
  }

  /** A push to a server that has no pending probe, or before that probe is taken off its list. */
  lemma PushToSound(c: Context, q: Proto, i: nat, score: Score, now: int)
    requires Sound(c) && i < |c.servers| && (Claimed(c, q) ==> Probes(c.servers[i], c.mode, q))
    requires score.Latency? ==> score.ms <= c.maxRtt
    requires Sum(Latencies(Pushed(c.At(q).records[i].stat, score, now).queue)) <= U32_MAX
    ensures Sound(PushTo(c, q, i, score, now))
    ensures Heavy(c.servers[i], q) ==> PushTo(c, q, i, score, now).At(q).records[i].score < U32_MAX
  {
    hide SideSound, TaskSound, CheckSound, Pushed, CastScore, Latencies, Sum, Heavy, Probes, KeepsHeavy, Claimed,
      PushTo;
    SideOfSound(c, q);
    PushedRecord(c, q, i, score, now);
    PushToIs(c, q, i, score, now);
    hide ProtoSound;
    var d := PushTo(c, q, i, score, now);
    PushProto(c, d, q, Tcp);
    PushProto(c, d, q, Udp);
  }

  lemma SideOfSound(c: Context, p: Proto)
    requires Sound(c)
    ensures SideSound(c, p)
  {
    hide SideSound, TaskSound, CheckSound;
  }

  lemma PushProto(c: Context, d: Context, q: Proto, p: Proto)
    requires c.WellFormed() && d.WellFormed() && ProtoSound(c, p)
    requires d.servers == c.servers && d.mode == c.mode
    requires d.all == c.all && d.bestOnly == c.bestOnly && d.checked == c.checked
    requires if p == q then SideSound(d, p) && KeepsHeavy(c, d, p) else d.At(p) == c.At(p)
    ensures ProtoSound(d, p)
  {
    hide SideSound, TaskSound, CheckSound, KeepsHeavy;
    if p != q {
      SameSide(c, d, p);
    }
    SameTask(c, d, p, c.all);
    SameTask(c, d, p, c.bestOnly);
    SameCheck(c, d, p);
  }

  lemma PushedTo(c: Context, t: TaskId, q: Proto, i: nat)
    requires Sound(c) && TaskOf(c, t).Checking? && (q, i) in TaskOf(c, t).pending
    ensures i < |c.servers| && Probes(c.servers[i], c.mode, q)
  {
    assert ProtoSound(c, Tcp) && ProtoSound(c, Udp);
    assert TaskSound(c, q, TaskOf(c, t));
  }

  lemma StepIsPush(c: Context, t: TaskId, q: Proto, i: nat, score: Score, now: int)
    requires c.WellFormed() && CanStep(c, Push(t, q, i, score, now))
    ensures i < |c.servers|
    ensures var d := PushTo(c, q, i, score, now);
      && TaskOf(d, t) == TaskOf(c, t)
      && Step(c, Push(t, q, i, score, now)) == WithTask(d, t, TaskOf(c, t).(pending := TaskOf(c, t).pending - {(q, i)}))
  {
    assert c.InList(TaskOf(c, t));
  }

  lemma PushSound(c: Context, t: TaskId, q: Proto, i: nat, score: Score, now: int)
    requires Sound(c) && CanStep(c, Push(t, q, i, score, now)) && Plausible(c, Push(t, q, i, score, now))
    ensures Sound(Step(c, Push(t, q, i, score, now)))
  {
    PushedTo(c, t, q, i);
    StepIsPush(c, t, q, i, score, now);
    hide Step, PushTo, Heavy, ProtoSound, Pushed, Latencies, Sum, Probes, Claimed;
    PushToSound(c, q, i, score, now);
    var d, e := PushTo(c, q, i, score, now), Step(c, Push(t, q, i, score, now));
    PendingTaken(d, e, t, q, i, Tcp);
    PendingTaken(d, e, t, q, i, Udp);
  }

  lemma PendingTaken(d: Context, e: Context, t: TaskId, q: Proto, i: nat, p: Proto)
    requires d.WellFormed() && e.WellFormed() && ProtoSound(d, p) && TaskOf(d, t).Checking? && i < |d.servers|
    requires Heavy(d.servers[i], q) ==> d.At(q).records[i].score < U32_MAX
    requires e == WithTask(d, t, TaskOf(d, t).(pending := TaskOf(d, t).pending - {(q, i)}))
    ensures ProtoSound(e, p)
  {
    assert e.At(p) == d.At(p);
    hide SideSound, TaskSound, CheckSound, KeepsHeavy, Heavy;
    TaskWithout(d, p, TaskOf(d, t), q, i);
    SameSide(d, e, p);
    SameTask(d, e, p, e.all);
    SameTask(d, e, p, e.bestOnly);
    SameCheck(d, e, p);
  }

  lemma FinishSide(c: Context, t: Task, p: Proto)
    requires c.WellFormed() && ProtoSound(c, p) && Claimed(c, p)
    requires t.Checking? && t.pending == {} && TaskSound(c, p, t) && Flag(t, p)
    ensures c.servers != [] && Enabled(c.servers[SelectSide(c.At(p)).best], p)
  {
    assert c.servers != [] && Serves(c.mode, p);
    hide Heavy, Enabled, StatsInRange, TaskSound;
    if SomeHeavy(c.servers, c.mode, p) {
      var i := ScoredAtEnd(c, p, t);
    }
    SelectionEnabledIff(c.servers, c.mode, p, c.At(p).records);
  }

  lemma ScoredAtEnd(c: Context, p: Proto, t: Task) returns (i: nat)
    requires c.WellFormed() && SomeHeavy(c.servers, c.mode, p)
    requires t.Checking? && t.pending == {} && TaskSound(c, p, t) && Flag(t, p)
    ensures HeavyScored(c, p, i)
  {
    i :| Scored(c, p, t, i);
  }

  /** `best` is the first probed server with the smallest score among all that have been scored, each score
      being that of its current statistics. */
  ghost predicate IsBest(servers: seq<Server>, mode: Mode, p: Proto, records: seq<Record>, best: nat)
    requires |records| == |servers| && StatsInRange(servers, p, records)
  {
    && best < |servers| && Probes(servers[best], mode, p)
    && forall j | 0 <= j < |records| && records[j].score < U32_MAX ::
      && CastScore(records[best].stat) <= CastScore(records[j].stat)
      && (j < best ==> CastScore(records[best].stat) < CastScore(records[j].stat))
  }

  lemma SelectsSmallest(servers: seq<Server>, mode: Mode, p: Proto, records: seq<Record>, i: nat)
    requires |records| == |servers| && OnlyProbedScore(servers, mode, p, records) && StatsInRange(servers, p, records)
    requires i < |records| && records[i].score < U32_MAX
    ensures IsBest(servers, mode, p, records, FirstMinimum(Scores(records)))
  {
    var scores := Scores(records);
    var best := FirstMinimum(scores);
    hide FirstMinimum, Scores, Probes, InRange, CastScore;
    assert scores[best] <= scores[i];
    assert Probes(servers[best], mode, p);
    forall j | 0 <= j < |records| && records[j].score < U32_MAX
      ensures CastScore(records[best].stat) <= CastScore(records[j].stat)
      ensures j < best ==> CastScore(records[best].stat) < CastScore(records[j].stat)
    {
      assert scores[best] <= scores[j];
    }
  }

  /** At the end of a check that selects for a protocol with some server that cannot saturate, the best server
      is the first one with the smallest score. */
  lemma FinishSelectsBest(c: Context, t: TaskId, p: Proto)
    requires Sound(c) && CanStep(c, Finish(t)) && Flag(TaskOf(c, t), p) && SomeHeavy(c.servers, c.mode, p)
    ensures var d := Step(c, Finish(t));
      && d.At(p).records == c.At(p).records && StatsInRange(c.servers, p, c.At(p).records)
      && IsBest(c.servers, c.mode, p, c.At(p).records, d.At(p).best)
  {
    assert ProtoSound(c, Tcp) && ProtoSound(c, Udp);
    assert Serves(c.mode, p) && SomeProbed(c.servers, c.mode, p);
    assert Step(c, Finish(t)).At(p) == SelectSide(c.At(p));
    hide TaskSound, Step, StatsInRange, OnlyProbedScore, IsBest, Sound, Heavy, Probes;
    var i := ScoredAtEnd(c, p, TaskOf(c, t));
    SelectsSmallest(c.servers, c.mode, p, c.At(p).records, i);
  }

  lemma FinishSound(c: Context, t: TaskId)
    requires Sound(c) && CanStep(c, Finish(t))
    ensures Sound(Step(c, Finish(t)))
  {
    var d := Step(c, Finish(t));
    assert ProtoSound(c, Tcp) && ProtoSound(c, Udp);
    hide ProtoSound;
    FinishProto(c, t, Tcp);
    FinishProto(c, t, Udp);
  }

  lemma FinishProto(c: Context, t: TaskId, p: Proto)
    requires c.WellFormed() && ProtoSound(c, p) && CanStep(c, Finish(t))
    ensures ProtoSound(Step(c, Finish(t)), p)
  {
    var task, d := TaskOf(c, t), Step(c, Finish(t));
    assert d.At(p) == if Serves(c.mode, p) && Flag(task, p) then SelectSide(c.At(p)) else c.At(p);
    assert d.servers == c.servers && d.mode == c.mode && TaskOf(d, t).Idle?;
    assert d.checked == (c.checked || t == AllServers);
    assert d.all == if t == AllServers then Idle else c.all;
    assert d.bestOnly == if t == BestServer then Idle else c.bestOnly;
    hide Step, StatsInRange, OnlyProbedScore, Heavy, Probes, Scored, Serves, Scores, FirstMinimum;
    if Claimed(c, p) && Flag(task, p) {
      FinishSide(c, task, p);
    }
    assert d.At(p).records == c.At(p).records;
    assert SideSound(d, p);
    hide SideSound, TaskSound;
    SameTask(c, d, p, c.all);
    SameTask(c, d, p, c.bestOnly);
    if t == AllServers && ManyProbed(c, p) && SomeHeavy(c.servers, c.mode, p) {
      var i := ScoredAtEnd(c, p, task);
      assert HeavyScored(d, p, i);
    } else {
      KeepsCheck(c, d, p);
    }
    assert TaskSound(d, p, Idle) by {
      IdleSound(d, p);
    }
  }

  lemma IdleSound(c: Context, p: Proto)
    requires c.WellFormed()
    ensures TaskSound(c, p, Idle)
  {
  }

  /** Every step of a context's checkers keeps it sound. */
  lemma StepSound(c: Context, a: Action)
    requires Sound(c) && CanStep(c, a) && Plausible(c, a)
    ensures Sound(Step(c, a))
  {
    match a
    case Start(t) => StartKeeps(c, t);
    case Push(t, p, i, score, now) => PushSound(c, t, p, i, score, now);
    case Finish(t) => FinishSound(c, t);
    case Abort => AbortSound(c);
  }

  lemma AbortSound(c: Context)
    requires Sound(c)
    ensures Sound(Step(c, Abort))
  {
    assert ProtoSound(c, Tcp) && ProtoSound(c, Udp);
    var d := c.(all := Idle, bestOnly := Idle);
    hide ProtoSound;
    AbortProto(c, d, Tcp);
    AbortProto(c, d, Udp);
  }

  lemma AbortProto(c: Context, d: Context, p: Proto)
    requires c.WellFormed() && d.WellFormed() && ProtoSound(c, p) && d == c.(all := Idle, bestOnly := Idle)
    ensures ProtoSound(d, p)
  {
    assert d.At(p) == c.At(p);
    hide SideSound, KeepsHeavy, TaskSound, CheckSound;
    SameSide(c, d, p);
    SameCheck(c, d, p);
    IdleSound(d, p);
  }

  lemma StartKeeps(c: Context, t: TaskId)
    requires Sound(c) && CanStep(c, Start(t))
    ensures Sound(Step(c, Start(t)))
  {
    var d := Step(c, Start(t));
    assert d == WithTask(c, t, Started(c, t));
    assert ProtoSound(c, Tcp) && ProtoSound(c, Udp);
    hide ProtoSound, Step, Started;
    StartProto(c, d, t, Tcp);
    StartProto(c, d, t, Udp);
  }

  lemma StartProto(c: Context, d: Context, t: TaskId, p: Proto)
    requires c.WellFormed() && d.WellFormed() && ProtoSound(c, p) && (t == BestServer ==> c.checked)
    requires d == WithTask(c, t, Started(c, t))
    ensures ProtoSound(d, p)
  {
    StartSound(c, t, p);
    assert d.At(p) == c.At(p);
    hide StartAll, StartBest, Scored, SideSound, TaskSound, Started, KeepsHeavy, Probed, Heavy, SomeHeavy;
    SameSide(c, d, p);
    SameTask(c, d, p, c.all);
    SameTask(c, d, p, c.bestOnly);
    SameTask(c, d, p, Started(c, t));
    KeepsCheck(c, d, p);
  }

  // ------------------------------------------------------------------ the balancer

  /** Settings every context of a balancer shares. */
  datatype Settings = Settings(mode: Mode, maxRtt: u32, window: nat)

  /** All contexts ever made, the one in use, and the TCP servers handed out so far, each by its context and
      index. Checkers of replaced contexts may still run for a while. */
  datatype Balancer = Balancer(settings: Settings, contexts: seq<Context>, current: nat, handed: set<(nat, nat)>)

  datatype Event =
    | Checker(which: nat, action: Action)
    | Prepare(servers: seq<Server>)
    | Swap(which: nat)
    | HandOut
    | ReportFailure(which: nat, idx: nat, now: int)

  function Build(settings: Settings, servers: seq<Server>): Balancer {
    Balancer(settings, [NewContext(servers, settings.mode, settings.maxRtt, settings.window)], 0, {})
  }

  predicate ContextsFit(b: Balancer) {
    && b.current < |b.contexts|
    && (forall k | 0 <= k < |b.contexts| :: b.contexts[k].WellFormed())
    && forall x <- b.handed :: x.0 < |b.contexts| && x.1 < |b.contexts[x.0].servers|
  }

  /** The event can happen and what it brings is as assumed. */
  predicate Possible(b: Balancer, e: Event)
    requires ContextsFit(b)
  {
    match e
    case Checker(k, a) => k < |b.contexts| && CanStep(b.contexts[k], a) && Plausible(b.contexts[k], a)
    case Prepare(servers) => forall i | 0 <= i < |servers| :: Weighted(servers[i])
    case Swap(k) => k < |b.contexts|
    case HandOut => b.contexts[b.current].servers != []
    case ReportFailure(k, i, now) => (k, i) in b.handed && ReportPlausible(b.contexts[k], i, now)
  }

  /** The latencies left in the window when a failure is reported add up in 32 bits. */
  predicate ReportPlausible(c: Context, i: nat, now: int)
    requires c.WellFormed() && i < |c.servers|
  {
    Sum(Latencies(Pushed(c.tcp.records[i].stat, Errored, now).queue)) <= U32_MAX
  }

  function Happen(b: Balancer, e: Event): (c: Balancer)
    requires ContextsFit(b) && Possible(b, e)
  {
    match e
    case Checker(k, a) => b.(contexts := b.contexts[k := Step(b.contexts[k], a)])
    case Prepare(servers) =>
      b.(contexts := b.contexts + [NewContext(servers, b.settings.mode, b.settings.maxRtt, b.settings.window)])
    case Swap(k) => b.(current := k)
    case HandOut => b.(handed := b.handed + {(b.current, b.contexts[b.current].tcp.best)})
    case ReportFailure(k, i, now) => b.(contexts := b.contexts[k := PushTo(b.contexts[k], Tcp, i, Errored, now)])
  }

  ghost predicate AllSound(b: Balancer) {
    && b.settings.maxRtt > 0
    && b.current < |b.contexts|
    && (forall k | 0 <= k < |b.contexts| :: Sound(b.contexts[k]))
    && forall x <- b.handed :: HandedSound(b, x.0, x.1)
  }

  /** A server handed out is one of its context's, and enabled when the best server is claimed to be. */
  ghost predicate HandedSound(b: Balancer, k: nat, i: nat) {
    && k < |b.contexts| && i < |b.contexts[k].servers|
    && (Claimed(b.contexts[k], Tcp) ==> Enabled(b.contexts[k].servers[i], Tcp))
  }

  /** A run: each state follows from the one before by a possible event. */
  ghost predicate IsRun(states: seq<Balancer>, events: seq<Event>) {
    && |states| == |events| + 1
    && forall i | 0 <= i < |events| ::
      ContextsFit(states[i]) && Possible(states[i], events[i]) && states[i + 1] == Happen(states[i], events[i])
  }

  lemma StepKeepsList(c: Context, a: Action)
    requires c.WellFormed() && CanStep(c, a)
    ensures Step(c, a).servers == c.servers && Step(c, a).mode == c.mode
  {
  }

  lemma HappenSound(b: Balancer, e: Event)
    requires AllSound(b) && ContextsFit(b) && Possible(b, e)
    ensures AllSound(Happen(b, e))
  {
    hide Sound, Plausible, Step, PushTo, CanStep, ReportPlausible, Claimed, Enabled;
    var d := Happen(b, e);
    match e
    case Checker(k, a) =>
      StepSound(b.contexts[k], a);
      StepKeepsList(b.contexts[k], a);
      SameHanded(b, d);
    case Prepare(servers) =>
      InitialSound(servers, b.settings.mode, b.settings.maxRtt, b.settings.window);
      SameHanded(b, d);
    case Swap(_) => SameHanded(b, d);
    case HandOut =>
      BestOfSound(b.contexts[b.current], Tcp);
      SameHanded(b, d.(handed := b.handed));
    case ReportFailure(k, i, now) =>
      ReportSound(b.contexts[k], i, now);
      SameHanded(b, d);
  }

  lemma SameHanded(b: Balancer, d: Balancer)
    requires forall x <- b.handed :: HandedSound(b, x.0, x.1)
    requires |d.contexts| >= |b.contexts| && d.handed == b.handed
    requires forall k | 0 <= k < |b.contexts| ::
      d.contexts[k].servers == b.contexts[k].servers && d.contexts[k].mode == b.contexts[k].mode
    ensures forall x <- d.handed :: HandedSound(d, x.0, x.1)
  {
  }

  lemma BestOfSound(c: Context, p: Proto)
    requires Sound(c)
    ensures c.servers != [] ==> c.At(p).best < |c.servers|
    ensures Claimed(c, p) ==> c.servers != [] && Enabled(c.servers[c.At(p).best], p)
  {
    assert ProtoSound(c, Tcp) && ProtoSound(c, Udp);
  }

  lemma ReportSound(c: Context, i: nat, now: int)
    requires Sound(c) && i < |c.servers| && (Claimed(c, Tcp) ==> Enabled(c.servers[i], Tcp))
    requires ReportPlausible(c, i, now)
    ensures Sound(PushTo(c, Tcp, i, Errored, now))
  {
    hide Sound, Pushed, PushTo, Latencies, Sum, Anchored;
    PushToSound(c, Tcp, i, Errored, now);
  }

  /** In every interleaving of checks, replacements, leftover checkers and reported failures, every context
      stays sound. */
  lemma {:induction false} RunSound(
    settings: Settings, servers: seq<Server>, states: seq<Balancer>, events: seq<Event>, n: nat)
    requires settings.maxRtt > 0 && forall i | 0 <= i < |servers| :: Weighted(servers[i])
    requires IsRun(states, events) && states[0] == Build(settings, servers) && n < |states|
    ensures AllSound(states[n])
  {
    hide Sound, Weighted;
    if n == 0 {
      InitialSound(servers, settings.mode, settings.maxRtt, settings.window);
    } else {
      RunSound(settings, servers, states, events, n - 1);
      HappenSound(states[n - 1], events[n - 1]);
    }
  }

  /** The server a context hands out is one of its own. It is enabled for the protocol whenever the mode
      serves the protocol, some server is enabled for it, and either the first server is or the score of one of
      the enabled servers cannot saturate. */
  lemma BestServerUsable(
    settings: Settings, servers: seq<Server>, states: seq<Balancer>, events: seq<Event>, n: nat, k: nat, p: Proto)
    requires settings.maxRtt > 0 && forall i | 0 <= i < |servers| :: Weighted(servers[i])
    requires IsRun(states, events) && states[0] == Build(settings, servers) && n < |states|
    requires k < |states[n].contexts|
    ensures states[n].current < |states[n].contexts|
    ensures var c := states[n].contexts[k];
      && c.WellFormed()
      && (c.servers != [] ==> c.At(p).best < |c.servers|)
      && (SomeProbed(c.servers, c.mode, p) && Anchored(c.servers, c.mode, p) ==>
        c.servers != [] && Enabled(c.servers[c.At(p).best], p))
  {
    hide Weighted, IsRun, SomeProbed, Anchored, Enabled;
    RunSound(settings, servers, states, events, n);
    var c := states[n].contexts[k];
    BestOfSound(c, p);
  }

  /** A finite run of one context's checkers. */
  ghost predicate StepsTo(c: Context, actions: seq<Action>, d: Context)
    decreases |actions|
  {
    if actions == [] then c == d
    else
      && c.WellFormed() && CanStep(c, actions[0]) && Plausible(c, actions[0])
      && StepsTo(Step(c, actions[0]), actions[1..], d)
  }

  lemma StepsCons(c: Context, a: Action, actions: seq<Action>, d: Context)
    requires c.WellFormed() && CanStep(c, a) && Plausible(c, a) && StepsTo(Step(c, a), actions, d)
    ensures StepsTo(c, [a] + actions, d)
  {
    hide Plausible, Step, CanStep;
    assert ([a] + actions)[1..] == actions;
  }

  /** Three servers, the first without weight and the others with the least positive one. */
  function Featherweights(): (list: seq<Server>)
    ensures |list| == 3
  {
    [Server(TcpOnly, 0.0, 0.0), Server(TcpOnly, EPSILON, 0.0), Server(TcpOnly, EPSILON, 0.0)]
  }

  /** The check of all servers whose two probes fail. */
  function FailedCheck(now: int): seq<Action> {
    [Start(AllServers)] +
    ([Push(AllServers, Tcp, 1, Errored, now)] +
     ([Push(AllServers, Tcp, 2, Errored, now)] +
      ([Finish(AllServers)] + [])))
  }

  lemma FeatherweightsEnabled()
    ensures var list := Featherweights();
      && !Enabled(list[0], Tcp) && Enabled(list[1], Tcp) && Enabled(list[2], Tcp)
      && !Enabled(list[0], Udp) && !Enabled(list[1], Udp) && !Enabled(list[2], Udp)
  {
  }

  lemma ProbesFeatherweights(maxRtt: u32, window: nat)
    ensures var c := NewContext(Featherweights(), TcpOnly, maxRtt, window);
      StartAll(c) == Checking({(Tcp, 1), (Tcp, 2)}, true, false)
  {
    var list := Featherweights();
    FeatherweightsEnabled();
    hide Featherweights, Enabled, NewRecords, InitialBest;
    assert Probed(list, TcpOnly, Tcp, 1) == [];
    assert Probed(list, TcpOnly, Tcp, 2) == [1];
    assert Probed(list, TcpOnly, Tcp, 3) == [1, 2];
    assert Probed(list, TcpOnly, Udp, 1) == [];
    assert Probed(list, TcpOnly, Udp, 2) == [];
    assert Probed(list, TcpOnly, Udp, 3) == [];
    assert (set i <- [1, 2] :: (Tcp, i)) == {(Tcp, 1), (Tcp, 2)};
  }

  lemma ErrorHasNoLatency(now: int, window: nat)
    ensures DropExpired([Probe(Errored, now)], now, window) == [Probe(Errored, now)]
    ensures Sum(Latencies([Probe(Errored, now)])) == 0
  {
    assert [Probe(Errored, now)][..0] == [];
    assert Latencies([Probe(Errored, now)]) == [];
  }

  lemma FirstErrorPlausible(s: Stat, now: int)
    requires s.queue == []
    ensures Sum(Latencies(Pushed(s, Errored, now).queue)) == 0
  {
    hide *;
    PushedQueue(s, Errored, now);
    assert s.queue + [Probe(Errored, now)] == [Probe(Errored, now)];
    ErrorHasNoLatency(now, s.window);
  }

  lemma FailedPush(c: Context, i: nat, window: nat, now: int)
    requires c.WellFormed() && c.all.Checking? && (Tcp, i) in c.all.pending && i < |c.servers|
    requires c.tcp.records[i].stat == NewStat(EPSILON, c.maxRtt, window)
    ensures var a, r := Push(AllServers, Tcp, i, Errored, now), c.tcp.records[i];
      && CanStep(c, a) && Plausible(c, a)
      && Step(c, a) == c.(
        tcp := c.tcp.(records := c.tcp.records[i := Record(Pushed(r.stat, Errored, now), U32_MAX)]),
        all := c.all.(pending := c.all.pending - {(Tcp, i)}))
  {
    FirstErrorSaturates(EPSILON, c.maxRtt, window, now);
    FirstErrorPlausible(NewStat(EPSILON, c.maxRtt, window), now);
    assert Product(U32_MAX as real, EPSILON) <= 8000.0;
    hide CastScore, Pushed, Latencies, Sum, Product;
  }

  /** Where no enabled server weighs enough the property fails: when the probes of both enabled servers fail, their
      scores equal the initial one and the disabled first server is selected. */
  lemma FeatherweightsSelectDisabled(maxRtt: u32, window: nat, now: int) returns (last: Context)
    requires maxRtt > 0
    ensures StepsTo(NewContext(Featherweights(), TcpOnly, maxRtt, window), FailedCheck(now), last)
    ensures SomeProbed(last.servers, TcpOnly, Tcp) && last.servers == Featherweights()
    ensures last.tcp.best == 0 && !Enabled(last.servers[0], Tcp)
  {
    var list := Featherweights();
    ProbesFeatherweights(maxRtt, window);
    hide CastScore, Pushed, StartAll, Latencies, Sum, StepsTo, Product, Probed, FirstMinimum;
    var c0 := NewContext(list, TcpOnly, maxRtt, window);
    assert c0.WellFormed();
    var c1 := Step(c0, Start(AllServers));
    FailedPush(c1, 1, window, now);
    var push1, push2 := Push(AllServers, Tcp, 1, Errored, now), Push(AllServers, Tcp, 2, Errored, now);
    var finish := Finish(AllServers);
    var c2 := Step(c1, push1);
    FailedPush(c2, 2, window, now);
    var c3 := Step(c2, push2);
    last := FailedSelection(c3);
    hide Plausible, Step;
    NoStepsLeft(last);
    StepsCons(c3, finish, [], last);
    StepsCons(c2, push2, [finish] + [], last);
    StepsCons(c1, push1, [push2] + ([finish] + []), last);
    StepsCons(c0, Start(AllServers), [push1] + ([push2] + ([finish] + [])), last);
  }

  lemma FailedSelection(c: Context) returns (d: Context)
    requires c.WellFormed() && c.servers == Featherweights() && c.mode == TcpOnly
    requires c.all == Checking({}, true, false)
    requires forall i | 0 <= i < 3 :: c.tcp.records[i].score == U32_MAX
    ensures CanStep(c, Finish(AllServers)) && d == Step(c, Finish(AllServers)) && Plausible(c, Finish(AllServers))
    ensures SomeProbed(d.servers, TcpOnly, Tcp) && d.servers == Featherweights()
    ensures d.tcp.best == 0 && !Enabled(d.servers[0], Tcp)
  {
    SelectionEnabledIff(c.servers, TcpOnly, Tcp, c.tcp.records);
    d := Step(c, Finish(AllServers));
    assert Probes(c.servers[1], TcpOnly, Tcp);
    assert d.tcp.best == FirstMinimum(Scores(c.tcp.records));
    assert Enabled(c.servers[1], Tcp) && Enabled(c.servers[2], Tcp);
  }

  lemma NoStepsLeft(c: Context)
    ensures StepsTo(c, [], c)
  {
  }

  // ------------------------------------------------------------------ the context object

  method UpdateRecord(records: seq<Record>, i: nat, score: Score, now: int) returns (updated: seq<Record>)
    requires i < |records| && records[i].stat.maxRtt > 0
    ensures Pushed(records[i].stat, score, now).maxRtt > 0
    ensures var stat := Pushed(records[i].stat, score, now);
      updated == records[i := Record(stat, CastScore(stat))]
  {
    hide CastScore, Pushed;
    PushedSettings(records[i].stat, score, now);
    var stat := Pushed(records[i].stat, score, now);
    updated := records[i := Record(stat, CastScore(stat))];
  }

  class PingBalancerContext {
    const servers: seq<Server>
    const mode: Mode
    const maxServerRtt: u32
    var tcpRecords: seq<Record>
    var udpRecords: seq<Record>
    var bestTcpIdx: nat
    var bestUdpIdx: nat
    var allTask: Task
    var bestTask: Task
    /** Whether a check of all servers has been finished. */
    var checkedOnce: bool

    function State(): Context
      reads this
    {
      Context(servers, mode, maxServerRtt, Side(tcpRecords, bestTcpIdx), Side(udpRecords, bestUdpIdx),
              allTask, bestTask, checkedOnce)
    }

    constructor (list: seq<Server>, m: Mode, maxRtt: u32, window: nat)
      requires maxRtt > 0
      ensures State() == NewContext(list, m, maxRtt, window)
    {
      var tcpIdx, udpIdx := FindBestIdx(list, m);
      servers := list;
      mode := m;
      maxServerRtt := maxRtt;
      tcpRecords := NewRecords(list, Tcp, maxRtt, window);
      udpRecords := NewRecords(list, Udp, maxRtt, window);
      bestTcpIdx := tcpIdx;
      bestUdpIdx := udpIdx;
      allTask := Idle;
      bestTask := Idle;
      checkedOnce := false;
    }

    method ListProbes() returns (vfutTcp: seq<nat>, vfutUdp: seq<nat>)
      ensures vfutTcp == Probed(servers, mode, Tcp, |servers|) && vfutUdp == Probed(servers, mode, Udp, |servers|)
    {
      hide Enabled, Serves, Probed;
      vfutTcp, vfutUdp := [], [];
      ProbedNone(servers, mode);
      for i := 0 to |servers|
        invariant vfutTcp == Probed(servers, mode, Tcp, i) && vfutUdp == Probed(servers, mode, Udp, i)
      {
        ProbedNext(servers, mode, Tcp, i);
        ProbedNext(servers, mode, Udp, i);
        if Serves(mode, Tcp) && Enabled(servers[i], Tcp) {
          vfutTcp := vfutTcp + [i];
        }
        if Serves(mode, Udp) && Enabled(servers[i], Udp) {
          vfutUdp := vfutUdp + [i];
        }
      }
    }

    /** First part of `check_once`: which servers to probe. */
    method BeginCheckOnce()
      requires State().WellFormed() && CanStep(State(), Start(AllServers))
      modifies this
      ensures State() == Step(old(State()), Start(AllServers))
    {
      var vfutTcp, vfutUdp := ListProbes();
      hide Probed;
      ghost var next := StartAll(State());
      var checkTcp, checkUdp := |vfutTcp| > 1, |vfutUdp| > 1;
      if checkTcp || checkUdp {
        var tcp := set i <- vfutTcp :: (Tcp, i);
        var udp := set i <- vfutUdp :: (Udp, i);
        allTask := Checking(if !checkTcp then udp else if !checkUdp then tcp else tcp + udp, checkTcp, checkUdp);
        assert {} + udp == udp && tcp + {} == tcp;
      }
      assert allTask == next;
    }

    /** One probe result. */
    method CheckUpdateScore(t: TaskId, p: Proto, i: nat, score: Score, now: int)
      requires State().WellFormed() && CanStep(State(), Push(t, p, i, score, now))
      modifies this
      ensures State() == Step(old(State()), Push(t, p, i, score, now))
    {
      hide Pushed, CastScore;
      ghost var before := State();
      assert before.InList(TaskOf(before, t));
      PushedSettings(before.At(p).records[i].stat, score, now);
      if p == Tcp {
        tcpRecords := UpdateRecord(tcpRecords, i, score, now);
      } else {
        udpRecords := UpdateRecord(udpRecords, i, score, now);
      }
      assert State() == PushTo(before, p, i, score, now);
      hide PushTo;
      if t == AllServers {
        allTask := allTask.(pending := allTask.pending - {(p, i)});
      } else {
        bestTask := bestTask.(pending := bestTask.pending - {(p, i)});
      }
    }

    /** Last part of both checks: the selection loops. */
    method FinishCheck(t: TaskId)
      requires State().WellFormed() && CanStep(State(), Finish(t))
      modifies this
      ensures State() == Step(old(State()), Finish(t))
    {
      var task := if t == AllServers then allTask else bestTask;
      assert State().InList(task);
      if Serves(mode, Tcp) && task.tcp {
        bestTcpIdx := SelectBest(Scores(tcpRecords));
      }
      if Serves(mode, Udp) && task.udp {
        bestUdpIdx := SelectBest(Scores(udpRecords));
      }
      if t == AllServers {
        allTask := Idle;
        checkedOnce := true;
      } else {
        bestTask := Idle;
      }
    }
  }
}
