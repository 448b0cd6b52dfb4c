/** The associations of one UDP server, `udprelay.rs`: packets are queued by key, and the bounded, expiring map
    may drop any association, with its replay filter, at any time. */
module NatMaps {
  import opened Prelude
  import opened Net
  import opened PacketWindow
  import opened UdpAssociation

  /** UDP_ASSOCIATION_SEND_CHANNEL_SIZE */
  const SEND_CHANNEL_SIZE: nat := 1024

  datatype Packet = Packet(peer: SocketAddr, target: Target, data: Bytes, control: Option<Control>)

  /** An association and the packets queued for it. */
  datatype Entry = Entry(assoc: Assoc, queue: seq<Packet>)

  datatype Table = Table(kind: MapKind, entries: map<NatKey, Entry>) {
    predicate Valid() {
      forall k <- entries :: entries[k].assoc.Valid()
    }
  }

  /** What can happen to a table. `server` is the session id a new association draws. */
  datatype MapEvent =
    | Receive(packet: Packet, server: u64)
    | Deliver(key: NatKey, blocked: bool)
    | Reply(key: NatKey, source: SocketAddr, reply: Bytes)
    | Tick(key: NatKey, accepted: bool)
    | Evict(key: NatKey)

  /** What comes of it: a packet was queued or refused, an association acted, or was dropped. */
  datatype Outcome = Received(ok: bool) | Acted(key: NatKey, action: Action) | Evicted(key: NatKey) | Quiet

  /** Key of the map entry a received packet is queued for; a session-keyed map refuses packets without
      control data. */
  function EntryKey(kind: MapKind, peer: SocketAddr, control: Option<Control>): Option<NatKey> {
    match kind
    case AssociationMap => Some(PeerAddrKey(peer))
    case SessionMap => if control.Some? then Some(SessionIdKey(control.value.clientSessionId)) else None
  }

  function SendPacket(t: Table, packet: Packet, server: u64): (r: (Table, bool))
    requires t.Valid()
    ensures r.0.Valid() && r.0.kind == t.kind
  {
    match EntryKey(t.kind, packet.peer, packet.control)
    case None => (t, false)
    case Some(k) =>
      if k in t.entries then
        var e := t.entries[k];
        if |e.queue| < SEND_CHANNEL_SIZE then
          (t.(entries := t.entries[k := e.(queue := e.queue + [packet])]), true)
        else
          (t, false)
      else
        var client := if t.kind.SessionMap? then Some(packet.control.value.clientSessionId) else None;
        (t.(entries := t.entries[k := Entry(Create(packet.peer, client, server), [packet])]), true)
  }

  function FromQueue(packet: Packet, blocked: bool): Event {
    FromClient(packet.peer, packet.target, packet.data, packet.control, blocked)
  }

  /** The association of `k` reacts to an event and is left with `queue`. */
  function Wake(t: Table, k: NatKey, e: Event, queue: seq<Packet>): (r: (Table, Outcome))
    requires t.Valid() && k in t.entries
    ensures r.0.Valid() && r.0.kind == t.kind
  {
    var (b, action) := React(t.entries[k].assoc, e);
    (t.(entries := t.entries[k := Entry(b, queue)]), Acted(k, action))
  }

  /** One event. Where nothing can come of it (no such association, nothing queued) nothing happens. */
  function Happen(t: Table, e: MapEvent): (r: (Table, Outcome))
    requires t.Valid()
    ensures r.0.Valid() && r.0.kind == t.kind
  {
    match e
    case Receive(packet, server) => var (u, ok) := SendPacket(t, packet, server); (u, Received(ok))
    case Deliver(k, blocked) =>
      if k in t.entries && t.entries[k].queue != [] then
        Wake(t, k, FromQueue(t.entries[k].queue[0], blocked), t.entries[k].queue[1..])
      else
        (t, Quiet)
    case Reply(k, source, reply) =>
      if k in t.entries then Wake(t, k, FromTarget(source, reply), t.entries[k].queue) else (t, Quiet)
    case Tick(k, accepted) =>
      if k in t.entries then Wake(t, k, KeepaliveTick(accepted), t.entries[k].queue) else (t, Quiet)
    case Evict(k) =>
      if k in t.entries then (t.(entries := t.entries - {k}), Evicted(k)) else (t, Quiet)
  }

  function RunMap(kind: MapKind, events: seq<MapEvent>): (r: (Table, seq<Outcome>))
    ensures r.0.Valid() && r.0.kind == kind && |r.1| == |events|
  {
    if events == [] then (Table(kind, map[]), [])
    else
      var (t, log) := RunMap(kind, events[..|events| - 1]);
      var (t', outcome) := Happen(t, events[|events| - 1]);
      (t', log + [outcome])
  }

  lemma {:induction false} RunMapPrefix(kind: MapKind, events: seq<MapEvent>, n: nat)
    requires n <= |events|
    ensures RunMap(kind, events[..n]).1 == RunMap(kind, events).1[..n]
    ensures n < |events| ==> RunMap(kind, events).1[n] == Happen(RunMap(kind, events[..n]).0, events[n]).1
  {
    hide Happen;
    if n == |events| {
      assert events[..n] == events;
    } else {
      var m := |events| - 1;
      RunMapPrefix(kind, events[..m], n);
      assert events[..m][..n] == events[..n];
      if n == m {
        assert events[..m][..m] == events[..m];
      }
    }
  }

  // ------------------------------------------------------------------ what the history says of one key

  /** The packet comes from the peer, or belongs to the session, that `k` names. */
  predicate Addressed(kind: MapKind, k: NatKey, packet: Packet) {
    match k
    case PeerAddrKey(addr) => kind == AssociationMap && packet.peer == addr
    case SessionIdKey(id) =>
      kind == SessionMap && packet.control.Some? && packet.control.value.clientSessionId == id
  }

  /** The packets for `k` that were accepted since an association of that key was last dropped, in order. */
  function Accepted(kind: MapKind, events: seq<MapEvent>, log: seq<Outcome>, k: NatKey): seq<Packet>
    requires |log| == |events|
  {
    if events == [] then []
    else
      var n := |events| - 1;
      var before := Accepted(kind, events[..n], log[..n], k);
      if log[n] == Evicted(k) then []
      else if events[n].Receive? && log[n] == Received(true) && Addressed(kind, k, events[n].packet)
      then before + [events[n].packet]
      else before
  }

  /** How many of them the association has taken. */
  function Taken(events: seq<MapEvent>, log: seq<Outcome>, k: NatKey): nat
    requires |log| == |events|
  {
    if events == [] then 0
    else
      var n := |events| - 1;
      if log[n] == Evicted(k) then 0
      else if events[n].Deliver? && events[n].key == k && log[n].Acted? then Taken(events[..n], log[..n], k) + 1
      else Taken(events[..n], log[..n], k)
  }

  /** The packets accepted and not taken. */
  function Waiting(kind: MapKind, events: seq<MapEvent>, log: seq<Outcome>, k: NatKey): seq<Packet>
    requires |log| == |events|
  {
    var accepted, taken := Accepted(kind, events, log, k), Taken(events, log, k);
    if taken < |accepted| then accepted[taken..] else []
  }

  /** The session id drawn with the first of them. */
  function Drawn(kind: MapKind, events: seq<MapEvent>, log: seq<Outcome>, k: NatKey): u64
    requires |log| == |events|
  {
    if events == [] then 0
    else
      var n := |events| - 1;
      if events[n].Receive? && Accepted(kind, events[..n], log[..n], k) == [] then events[n].server
      else Drawn(kind, events[..n], log[..n], k)
  }

  /** What the association of `k` was woken by: packets in the order accepted, replies and ticks. */
  function Heard(kind: MapKind, events: seq<MapEvent>, log: seq<Outcome>, k: NatKey): seq<Event>
    requires |log| == |events|
  {
    if events == [] then []
    else
      var n := |events| - 1;
      var before := Heard(kind, events[..n], log[..n], k);
      if log[n] == Evicted(k) then []
      else
        match events[n]
        case Deliver(q, blocked) =>
          var waiting := Waiting(kind, events[..n], log[..n], k);
          if q == k && waiting != [] then before + [FromQueue(waiting[0], blocked)] else before
        case Reply(q, source, reply) =>
          if q == k && log[n].Acted? then before + [FromTarget(source, reply)] else before
        case Tick(q, accepted) =>
          if q == k && log[n].Acted? then before + [KeepaliveTick(accepted)] else before
        case _ => before
  }

  /** What the association of `k` has done since the last one of that key was dropped. */
  function Since(log: seq<Outcome>, k: NatKey): seq<Action> {
    if log == [] then []
    else
      var n := |log| - 1;
      if log[n] == Evicted(k) then []
      else if log[n].Acted? && log[n].key == k then Since(log[..n], k) + [log[n].action]
      else Since(log[..n], k)
  }

  /** The association its first packet made for `k`. */
  function Made(k: NatKey, first: Packet, server: u64): (a: Assoc)
    ensures a.Valid()
  {
    Create(first.peer, if k.SessionIdKey? then Some(k.id) else None, server)
  }

  /** The entry of `k` is what the history of `k` alone says. */
  ghost predicate Follows(t: Table, events: seq<MapEvent>, log: seq<Outcome>, k: NatKey)
    requires |log| == |events|
  {
    var accepted, taken := Accepted(t.kind, events, log, k), Taken(events, log, k);
    && (forall packet <- accepted :: Addressed(t.kind, k, packet))
    && (k in t.entries <==> accepted != [])
    && (k !in t.entries ==> taken == 0 && Heard(t.kind, events, log, k) == [] && Since(log, k) == [])
    && (k in t.entries ==>
      && taken <= |accepted|
      && t.entries[k].queue == accepted[taken..]
      && RunEvents(Made(k, accepted[0], Drawn(t.kind, events, log, k)), Heard(t.kind, events, log, k)) ==
         (t.entries[k].assoc, Since(log, k)))
  }

  /** The key of a packet is its peer's address, or its session in a session-keyed map. */
  lemma KeyIsAddressed(kind: MapKind, packet: Packet, k: NatKey)
    ensures EntryKey(kind, packet.peer, packet.control) == Some(k) <==> Addressed(kind, k, packet)
  {
  }

  /** An accepted packet goes to the end of its key's queue, or makes its association; nothing else changes. */
  lemma SendExact(t: Table, packet: Packet, server: u64, k: NatKey)
    requires t.Valid()
    ensures var (u, ok) := SendPacket(t, packet, server);
      if ok && Addressed(t.kind, k, packet) then
        k in u.entries && u.entries[k] ==
          if k in t.entries then t.entries[k].(queue := t.entries[k].queue + [packet])
          else Entry(Made(k, packet, server), [packet])
      else
        && (k in u.entries <==> k in t.entries)
        && (k in t.entries ==> u.entries[k] == t.entries[k])
  {
    KeyIsAddressed(t.kind, packet, k);
    hide Create;
  }

  lemma ReceiveFollows(t: Table, events: seq<MapEvent>, log: seq<Outcome>, k: NatKey)
    requires t.Valid() && |events| == |log| > 0
    requires var n := |events| - 1;
      events[n].Receive? && Follows(t, events[..n], log[..n], k) && log[n] == Happen(t, events[n]).1
    ensures Follows(Happen(t, events[|events| - 1]).0, events, log, k)
  {
    hide React, SendPacket, EntryKey, Addressed, Made;
    var n := |events| - 1;
    SendExact(t, events[n].packet, events[n].server, k);
  }

  lemma HeardSnoc(a: Assoc, heard: seq<Event>, e: Event)
    requires a.Valid()
    ensures var (b, acts) := RunEvents(a, heard);
      var (c, action) := React(b, e);
      RunEvents(a, heard + [e]) == (c, acts + [action])
  {
    hide React;
    assert (heard + [e])[..|heard|] == heard;
  }

  lemma WokenFollows(t: Table, events: seq<MapEvent>, log: seq<Outcome>, k: NatKey)
    requires t.Valid() && |events| == |log| > 0
    requires var n := |events| - 1;
      && (events[n].Deliver? || events[n].Reply? || events[n].Tick?)
      && Follows(t, events[..n], log[..n], k) && log[n] == Happen(t, events[n]).1
    ensures Follows(Happen(t, events[|events| - 1]).0, events, log, k)
  {
    hide RunEvents, React, Made;
    var n := |events| - 1;
    if k in t.entries {
      var a := Made(k, Accepted(t.kind, events[..n], log[..n], k)[0], Drawn(t.kind, events[..n], log[..n], k));
      var heard := Heard(t.kind, events[..n], log[..n], k);
      match events[n]
      case Deliver(_, blocked) =>
        if t.entries[k].queue != [] {
          HeardSnoc(a, heard, FromQueue(t.entries[k].queue[0], blocked));
        }
      case Reply(_, source, reply) => HeardSnoc(a, heard, FromTarget(source, reply));
      case Tick(_, accepted) => HeardSnoc(a, heard, KeepaliveTick(accepted));
    }
  }

  lemma HappenFollows(t: Table, events: seq<MapEvent>, log: seq<Outcome>, k: NatKey)
    requires t.Valid() && |events| == |log| > 0
    requires var n := |events| - 1; Follows(t, events[..n], log[..n], k) && log[n] == Happen(t, events[n]).1
    ensures Follows(Happen(t, events[|events| - 1]).0, events, log, k)
  {
    var e := events[|events| - 1];
    if e.Receive? {
      hide *;
      ReceiveFollows(t, events, log, k);
    } else if !e.Evict? {
      hide *;
      WokenFollows(t, events, log, k);
    }
  }

  /** After every run the entry of a key is given by the history of that key alone: it exists exactly if a packet
      of the key was accepted since the last eviction; the packets taken and those waiting are the accepted ones in
      order; and the association has done what a lone association does when it is made for the first of them and
      hears the packets, replies and ticks of its key. */
  lemma {:induction false} RunMapFollows(kind: MapKind, events: seq<MapEvent>, k: NatKey)
    ensures var (t, log) := RunMap(kind, events); Follows(t, events, log, k)
  {
    if events != [] {
      hide Happen, Follows;
      var n := |events| - 1;
      RunMapFollows(kind, events[..n], k);
      var (t, log) := RunMap(kind, events[..n]);
      assert RunMap(kind, events).1[..n] == log;
      HappenFollows(t, events, RunMap(kind, events).1, k);
    }
  }

  // ------------------------------------------------------------------ what becomes of each event

  /** A packet is refused exactly when a session-keyed map misses its control data or 1024 packets of its key
      are waiting. */
  lemma ReceiveExact(kind: MapKind, events: seq<MapEvent>, j: nat)
    requires j < |events| && events[j].Receive?
    ensures var log, packet := RunMap(kind, events).1, events[j].packet;
      if kind.SessionMap? && packet.control.None? then log[j] == Received(false)
      else
        var k := if kind.SessionMap? then SessionIdKey(packet.control.value.clientSessionId)
                 else PeerAddrKey(packet.peer);
        log[j] == Received(|Waiting(kind, events[..j], log[..j], k)| < 1024)
  {
    hide RunMap, Accepted, Taken, Heard, Drawn, RunEvents, Create;
    RunMapPrefix(kind, events, j);
    var packet := events[j].packet;
    if kind.AssociationMap? || packet.control.Some? {
      var k := if kind.SessionMap? then SessionIdKey(packet.control.value.clientSessionId)
               else PeerAddrKey(packet.peer);
      RunMapFollows(kind, events[..j], k);
    }
  }

  /** Which of the other events come to something: a delivery if a packet waits; a reply, a tick or an eviction if a
      packet was accepted since the last eviction. */
  lemma EventReaches(kind: MapKind, events: seq<MapEvent>, j: nat)
    requires j < |events| && !events[j].Receive?
    ensures var log, e := RunMap(kind, events).1, events[j];
      var accepted, waiting :=
        Accepted(kind, events[..j], log[..j], e.key), Waiting(kind, events[..j], log[..j], e.key);
      if e.Evict? then log[j] == if accepted != [] then Evicted(e.key) else Quiet
      else if (if e.Deliver? then waiting else accepted) != [] then log[j].Acted? && log[j].key == e.key
      else log[j] == Quiet
  {
    hide RunMap, Accepted, Taken, Heard, Drawn, RunEvents, React, Made;
    RunMapPrefix(kind, events, j);
    RunMapFollows(kind, events[..j], events[j].key);
  }

  /** Each filter stands for exactly the IDs its own association sent, and a session's association has the
      session's key. */
  lemma RunMapTracks(kind: MapKind, events: seq<MapEvent>, k: NatKey)
    ensures var (t, log) := RunMap(kind, events);
      && (k !in t.entries ==> Since(log, k) == [])
      && (k in t.entries ==>
        && FilterTracks(t.entries[k].assoc, Since(log, k))
        && (kind.SessionMap? ==> k.SessionIdKey? && KeyOf(t.entries[k].assoc) == k))
  {
    hide RunMap, Accepted, Taken, Heard, Drawn, RunEvents, Create, FilterTracks, KeyOf, Since;
    RunMapFollows(kind, events, k);
    var (t, log) := RunMap(kind, events);
    if k in t.entries {
      var first := Accepted(kind, events, log, k)[0];
      assert Addressed(kind, k, first);
      var server, heard := Drawn(kind, events, log, k), Heard(kind, events, log, k);
      RunTracks(first.peer, if k.SessionIdKey? then Some(k.id) else None, server, heard);
      if k.SessionIdKey? {
        KeepAliveKeyFits(SessionMap, first.peer, k.id, server, heard);
      }
    }
  }

  // ------------------------------------------------------------------ when an ID goes out again

  /** The packet the association of `k` takes next after the events. */
  function NextPacket(kind: MapKind, events: seq<MapEvent>, k: NatKey): Option<Packet> {
    var waiting := Waiting(kind, events, RunMap(kind, events).1, k);
    if waiting != [] then Some(waiting[0]) else None
  }

  /** The association of `k` hands out a packet with this ID. */
  predicate Sends(outcome: Outcome, k: NatKey, id: u64) {
    outcome.Acted? && outcome.key == k && Carries(outcome.action, id)
  }

  predicate EvictedBetween(log: seq<Outcome>, k: NatKey, i: nat, j: nat)
    requires i < j <= |log|
  {
    exists m :: i < m < j && log[m] == Evicted(k)
  }

  /** What the association does with a packet it takes. */
  function Answer(packet: Packet, blocked: bool, last: u64, seen: set<u64>): Action {
    if !blocked && (packet.control.Some? ==> Admissible(last, seen, packet.control.value.packetId, U64_MAX))
    then Dispatch(packet.target, packet.data,
                  if packet.control.Some? then Some(packet.control.value.packetId) else None)
    else Nothing
  }

  lemma AdmitExact(a: Assoc, acts: seq<Action>, packet: Packet, blocked: bool, last: u64)
    requires FilterTracks(a, acts) && IsHighest(last, DispatchedIds(acts))
    ensures React(a, FromQueue(packet, blocked)).1 == Answer(packet, blocked, last, DispatchedIds(acts))
  {
    FreshRepresents();
    if packet.control.Some? {
      var c := packet.control.value;
      var session := if a.session.Some? then a.session.value else NewSession(c.clientSessionId);
      ValidateExact(session.window, DispatchedIds(acts), c.packetId, U64_MAX);
    }
    hide Validate;
  }

  /** In every run, the packet taken at a delivery is the first accepted one not yet taken. It goes out, with its own
      target and data, exactly when the ACL lets it through and its ID, if it carries one, is admissible after the
      IDs sent by its key's association since the last one was dropped. */
  lemma DeliverExact(kind: MapKind, events: seq<MapEvent>, j: nat, k: NatKey, blocked: bool, last: u64)
    requires j < |events| && events[j] == Deliver(k, blocked)
    requires NextPacket(kind, events[..j], k).Some?
    requires IsHighest(last, DispatchedIds(Since(RunMap(kind, events).1[..j], k)))
    ensures var log := RunMap(kind, events).1;
      log[j] ==
        Acted(k, Answer(NextPacket(kind, events[..j], k).value, blocked, last, DispatchedIds(Since(log[..j], k))))
  {
    hide RunMap, Accepted, Taken, Heard, Drawn, RunEvents, React, Made, FilterTracks, Answer, Since, DispatchedIds;
    RunMapPrefix(kind, events, j);
    RunMapFollows(kind, events[..j], k);
    RunMapTracks(kind, events[..j], k);
    var (t, log) := RunMap(kind, events[..j]);
    AdmitExact(t.entries[k].assoc, Since(log, k), t.entries[k].queue[0], blocked, last);
  }

  lemma DispatchedSnoc(acts: seq<Action>, action: Action)
    ensures DispatchedIds(acts) <= DispatchedIds(acts + [action])
    ensures forall id: u64 :: Carries(action, id) ==> id in DispatchedIds(acts + [action])
  {
    assert (acts + [action])[..|acts|] == acts;
  }

  lemma BetweenSnoc(log: seq<Outcome>, k: NatKey, i: nat)
    requires i < |log| - 1
    ensures var n := |log| - 1;
      EvictedBetween(log, k, i, |log|) <==> EvictedBetween(log[..n], k, i, n) || log[n] == Evicted(k)
  {
    var n := |log| - 1;
    assert forall m | 0 <= m < n :: log[..n][m] == log[m];
    if log[n] == Evicted(k) {
      assert EvictedBetween(log, k, i, |log|);
    }
  }

  lemma {:induction false} SentKept(log: seq<Outcome>, k: NatKey, i: nat, id: u64)
    requires i < |log| && Sends(log[i], k, id)
    ensures EvictedBetween(log, k, i, |log|) || id in DispatchedIds(Since(log, k))
  {
    hide DispatchedIds, Carries, EvictedBetween;
    var n := |log| - 1;
    if i < n {
      SentKept(log[..n], k, i, id);
      BetweenSnoc(log, k, i);
    }
    if log[n].Acted? {
      DispatchedSnoc(Since(log[..n], k), log[n].action);
    }
  }

  lemma BetweenPrefix(log: seq<Outcome>, k: NatKey, i: nat, j: nat)
    requires i < j <= |log|
    ensures EvictedBetween(log[..j], k, i, j) <==> EvictedBetween(log, k, i, j)
  {
    assert forall m | 0 <= m < j :: log[..j][m] == log[m];
  }

  /** An association that acts does so in answer to some event. */
  lemma ActsOnEvent(t: Table, e: MapEvent) returns (woken: Event)
    requires t.Valid() && Happen(t, e).1.Acted?
    ensures var outcome := Happen(t, e).1;
      outcome.key in t.entries && outcome.action == React(t.entries[outcome.key].assoc, woken).1
  {
    hide React;
    match e
    case Deliver(k, blocked) => woken := FromQueue(t.entries[k].queue[0], blocked);
    case Reply(_, source, reply) => woken := FromTarget(source, reply);
    case Tick(_, accepted) => woken := KeepaliveTick(accepted);
  }

  lemma SendIsNew(kind: MapKind, events: seq<MapEvent>, j: nat, k: NatKey, id: u64)
    requires j < |events| && Sends(RunMap(kind, events).1[j], k, id)
    ensures id !in DispatchedIds(Since(RunMap(kind, events).1[..j], k))
  {
    hide React, FilterTracks, Happen, RunMap, Since, DispatchedIds, Carries;
    RunMapPrefix(kind, events, j);
    RunMapTracks(kind, events[..j], k);
    var (t, log) := RunMap(kind, events[..j]);
    var woken := ActsOnEvent(t, events[j]);
    DispatchIsNew(t.entries[k].assoc, Since(log, k), woken, id);
  }

  /** A packet ID of one key goes out twice only if its association was dropped in between. */
  lemma TwiceNeedsEviction(kind: MapKind, events: seq<MapEvent>, i: nat, j: nat, k: NatKey, id: u64)
    requires i < j < |events|
    requires Sends(RunMap(kind, events).1[i], k, id) && Sends(RunMap(kind, events).1[j], k, id)
    ensures EvictedBetween(RunMap(kind, events).1, k, i, j)
  {
    var log := RunMap(kind, events).1;
    SendIsNew(kind, events, j, k, id);
    SentKept(log[..j], k, i, id);
    BetweenPrefix(log, k, i, j);
  }

  /** When a packet whose ID has gone out before goes out again: exactly when the ACL lets it through, the
      association was dropped in between, and the ID is admissible after what was sent since. */
  lemma SentAgainIff(kind: MapKind, events: seq<MapEvent>, i: nat, j: nat, k: NatKey, blocked: bool, last: u64)
    requires i < j < |events| && events[j] == Deliver(k, blocked)
    requires var next := NextPacket(kind, events[..j], k); next.Some? && next.value.control.Some?
    requires IsHighest(last, DispatchedIds(Since(RunMap(kind, events).1[..j], k)))
    requires Sends(RunMap(kind, events).1[i], k, NextPacket(kind, events[..j], k).value.control.value.packetId)
    ensures var log, id := RunMap(kind, events).1, NextPacket(kind, events[..j], k).value.control.value.packetId;
      Sends(log[j], k, id) <==>
        && !blocked && EvictedBetween(log, k, i, j)
        && Admissible(last, DispatchedIds(Since(log[..j], k)), id, U64_MAX)
  {
    var log, id := RunMap(kind, events).1, NextPacket(kind, events[..j], k).value.control.value.packetId;
    DeliverExact(kind, events, j, k, blocked, last);
    hide RunMap, NextPacket, Since;
    if Sends(log[j], k, id) {
      TwiceNeedsEviction(kind, events, i, j, k, id);
    }
  }

  /** A session whose association is dropped starts anew: the same packet goes out twice. */
  lemma EvictionForgets(packet: Packet, c: Control, server: u64, other: u64)
    requires packet.control == Some(c) && c.packetId < U64_MAX
    ensures var k := SessionIdKey(c.clientSessionId);
      var log := RunMap(SessionMap,
        [Receive(packet, server), Deliver(k, false), Evict(k), Receive(packet, other), Deliver(k, false)]).1;
      Sends(log[1], k, c.packetId) && Sends(log[4], k, c.packetId)
  {
    var k := SessionIdKey(c.clientSessionId);
    var events :=
      [Receive(packet, server), Deliver(k, false), Evict(k), Receive(packet, other), Deliver(k, false)];
    FirstPacketOut(packet, c, server);
    FirstPacketOut(packet, c, other);
    hide React, Create;
    assert events[..5] == events && events[..1] == [events[0]];
    assert events[..4][..3] == events[..3] && events[..3][..2] == events[..2] && events[..2][..1] == events[..1];
    assert events[..1][..0] == [];
    var empty := Table(SessionMap, map[]);
    assert RunMap(SessionMap, []).0 == empty;
    var first := Table(SessionMap, map[k := Entry(Create(packet.peer, Some(c.clientSessionId), server), [packet])]);
    assert RunMap(SessionMap, events[..1]).0 == first;
    var second := RunMap(SessionMap, events[..2]).0;
    assert second.entries.Keys == {k};
    assert second.entries - {k} == map[];
    assert RunMap(SessionMap, events[..3]).0 == empty;
    var fourth := Table(SessionMap, map[k := Entry(Create(packet.peer, Some(c.clientSessionId), other), [packet])]);
    assert RunMap(SessionMap, events[..4]).0 == fourth;
    hide Happen;
    RunMapPrefix(SessionMap, events, 1);
    RunMapPrefix(SessionMap, events, 4);
    FirstDelivery(first, k, packet, c, server);
    FirstDelivery(fourth, k, packet, c, other);
  }

  lemma FirstPacketOut(packet: Packet, c: Control, server: u64)
    requires packet.control == Some(c) && c.packetId < U64_MAX
    ensures React(Create(packet.peer, Some(c.clientSessionId), server), FromQueue(packet, false)).1 ==
      Dispatch(packet.target, packet.data, Some(c.packetId))
  {
    var a := Create(packet.peer, Some(c.clientSessionId), server);
    RunTracks(packet.peer, Some(c.clientSessionId), server, []);
    hide React, Create, FilterTracks;
    AdmitExact(a, [], packet, false, 0);
  }

  lemma FirstDelivery(t: Table, k: NatKey, packet: Packet, c: Control, server: u64)
    requires t.Valid() && k in t.entries && packet.control == Some(c) && c.packetId < U64_MAX
    requires t.entries[k] == Entry(Create(packet.peer, Some(c.clientSessionId), server), [packet])
    ensures Sends(Happen(t, Deliver(k, false)).1, k, c.packetId)
  {
    FirstPacketOut(packet, c, server);
    hide React, Create;
  }

  // ------------------------------------------------------------------ keep-alive

  /** In a session-keyed map every keep-alive message names the entry it comes from, so the arm for keys of the
      wrong kind is not reached. */
  lemma SessionKeepAlivesMatch(events: seq<MapEvent>, j: nat)
    requires j < |events|
    ensures var outcome := RunMap(SessionMap, events).1[j];
      outcome.Acted? && outcome.action.KeepAlive? ==> outcome.action.key == outcome.key
  {
    hide React, FilterTracks, KeyOf, Since, Happen, RunMap;
    RunMapPrefix(SessionMap, events, j);
    var (t, log) := RunMap(SessionMap, events[..j]);
    if Happen(t, events[j]).1.Acted? {
      var k := Happen(t, events[j]).1.key;
      RunMapTracks(SessionMap, events[..j], k);
      var woken := ActsOnEvent(t, events[j]);
      KeepAliveReportsKey(t.entries[k].assoc, woken);
    }
  }

  // ------------------------------------------------------------------ the map object

  class NatMap {
    const kind: MapKind
    var entries: map<NatKey, Entry>

    function State(): Table
      reads this
    {
      Table(kind, entries)
    }

    constructor (k: MapKind)
      ensures State() == RunMap(k, []).0
    {
      kind := k;
      entries := map[];
    }

    /** `send_packet`: queues a packet, for a new association if there is none. The queue of the packet's key, and
        no other, gains it at its end unless it is refused. */
    method Send(packet: Packet, server: u64) returns (ok: bool)
      requires State().Valid()
      modifies this
      ensures (State(), ok) == SendPacket(old(State()), packet, server)
      ensures !ok ==> entries == old(entries)
      ensures forall k | ok && Addressed(kind, k, packet) ::
        && k in entries
        && entries[k].queue == (if k in old(entries) then old(entries)[k].queue else []) + [packet]
    {
      match kind {
        case AssociationMap =>
          var key := PeerAddrKey(packet.peer);
          if key in entries {
            ok := TrySend(key, packet);
            return;
          }
          entries := entries[key := Entry(Create(packet.peer, None, server), [packet])];
        case SessionMap =>
          if packet.control.None? {
            return false;
          }
          var id := packet.control.value.clientSessionId;
          var key := SessionIdKey(id);
          if key in entries {
            ok := TrySend(key, packet);
            return;
          }
          entries := entries[key := Entry(Create(packet.peer, Some(id), server), [packet])];
      }
      ok := true;
    }

    method TrySend(key: NatKey, packet: Packet) returns (ok: bool)
      requires key in entries
      modifies this
      ensures ok <==> |old(entries)[key].queue| < SEND_CHANNEL_SIZE
      ensures entries == if ok
        then old(entries)[key := old(entries)[key].(queue := old(entries)[key].queue + [packet])] else old(entries)
    {
      var e := entries[key];
      if |e.queue| >= SEND_CHANNEL_SIZE {
        return false;
      }
      entries := entries[key := e.(queue := e.queue + [packet])];
      return true;
    }
  }
}
