/** One UDP association of the server, `udprelay.rs`: client packets out, responses back, keep-alive. */
module UdpAssociation {
  import opened Prelude
  import opened Net
  import opened PacketWindow

  type Bytes = seq<u8>

  /** Which NAT map owns the association. */
  datatype MapKind = AssociationMap | SessionMap

  datatype NatKey = PeerAddrKey(addr: SocketAddr) | SessionIdKey(id: u64)

  /** Control data of a received packet (AEAD 2022). */
  datatype Control = Control(clientSessionId: u64, packetId: u64, user: Option<nat>)

  /** Control data put on a response. */
  datatype ServerControl = ServerControl(clientSessionId: u64, serverSessionId: u64, packetId: u64, user: Option<nat>)

  datatype Target = SocketTarget(addr: SocketAddr) | DomainTarget(name: string, port: u16)

  /** What wakes the event loop. `blocked` is the ACL's answer; `accepted` says whether the keep-alive
      channel takes a message. */
  datatype Event =
    | FromClient(peer: SocketAddr, target: Target, data: Bytes, control: Option<Control>, blocked: bool)
    | FromTarget(source: SocketAddr, reply: Bytes)
    | KeepaliveTick(accepted: bool)

  /** What the loop does in answer. */
  datatype Action =
    | Dispatch(target: Target, data: Bytes, packetId: Option<u64>)
    | Respond(peer: SocketAddr, source: SocketAddr, reply: Bytes, control: Option<ServerControl>)
    | KeepAlive(key: NatKey)
    | Nothing

  datatype Session = Session(id: u64, window: Window, user: Option<nat>)

  datatype Assoc = Assoc(
    peer: SocketAddr,
    keepaliveFlag: bool,
    session: Option<Session>,
    serverSessionId: u64,
    serverPacketId: u64)
  {
    predicate Valid() {
      session.Some? ==> session.value.window.Valid()
    }
  }

  function NewSession(id: u64): (s: Session)
    ensures s.window.Valid()
  {
    Session(id, Fresh(), None)
  }

  function Create(peer: SocketAddr, clientSessionId: Option<u64>, serverSessionId: u64): (a: Assoc)
    ensures a.Valid()
  {
    var session := if clientSessionId.Some? then Some(NewSession(clientSessionId.value)) else None;
    Assoc(peer, false, session, serverSessionId, 0)
  }

  function OnClientPacket(
    a: Assoc, peer: SocketAddr, target: Target, data: Bytes, control: Option<Control>, blocked: bool)
    : (r: (Assoc, Action))
    requires a.Valid()
    ensures r.0.Valid()
  {
    var a1 := if a.session.Some? then a.(peer := peer) else a;
    if blocked then (a1, Nothing)
    else
      match control
      case None => (a1, Dispatch(target, data, None))
      case Some(c) =>
        var session := if a1.session.Some? then a1.session.value else NewSession(c.clientSessionId);
        var (window, ok) := Validate(session.window, c.packetId, U64_MAX);
        if ok then
          (a1.(session := Some(session.(window := window, user := c.user))), Dispatch(target, data, Some(c.packetId)))
        else
          (a1.(session := Some(session.(window := window))), Nothing)
  }

  /** IPv4-mapped IPv6 sources are shown to the client as IPv4. */
  function Unmapped(source: SocketAddr): SocketAddr {
    if source.ip.V6? && ToIpv4Mapped(source.ip.v6).Some?
    then SocketAddr(V4(ToIpv4Mapped(source.ip.v6).value), source.port)
    else source
  }

  function OnTargetPacket(a: Assoc, source: SocketAddr, reply: Bytes): (r: (Assoc, Action))
    requires a.Valid()
    ensures r.0.Valid()
  {
    var a1 := a.(keepaliveFlag := true);
    match a.session
    case None => (a1, Respond(a.peer, Unmapped(source), reply, None))
    case Some(s) =>
      if a.serverPacketId == U64_MAX then (a1, Nothing)
      else
        var id := a.serverPacketId + 1;
        (a1.(serverPacketId := id),
         Respond(a.peer, Unmapped(source), reply, Some(ServerControl(s.id, a.serverSessionId, id, s.user))))
  }

  function KeyOf(a: Assoc): NatKey {
    if a.session.Some? then SessionIdKey(a.session.value.id) else PeerAddrKey(a.peer)
  }

  function OnKeepaliveTick(a: Assoc, accepted: bool): (r: (Assoc, Action))
    requires a.Valid()
    ensures r.0.Valid()
  {
    if a.keepaliveFlag && accepted then (a.(keepaliveFlag := false), KeepAlive(KeyOf(a))) else (a, Nothing)
  }

  function React(a: Assoc, e: Event): (r: (Assoc, Action))
    requires a.Valid()
    ensures r.0.Valid()
  {
    match e
    case FromClient(peer, target, data, control, blocked) => OnClientPacket(a, peer, target, data, control, blocked)
    case FromTarget(source, reply) => OnTargetPacket(a, source, reply)
    case KeepaliveTick(accepted) => OnKeepaliveTick(a, accepted)
  }

  /** State after a run of events and the action each event led to. */
  function RunEvents(a: Assoc, events: seq<Event>): (r: (Assoc, seq<Action>))
    requires a.Valid()
    ensures r.0.Valid() && |r.1| == |events|
  {
    if events == [] then (a, [])
    else
      var (b, trace) := RunEvents(a, events[..|events| - 1]);
      var (b', action) := React(b, events[|events| - 1]);
      (b', trace + [action])
  }

  lemma {:induction false} RunPrefix(a: Assoc, events: seq<Event>, n: nat)
    requires a.Valid() && n <= |events|
    ensures RunEvents(a, events[..n]).1 == RunEvents(a, events).1[..n]
    ensures n < |events| ==> RunEvents(a, events).1[n] == React(RunEvents(a, events[..n]).0, events[n]).1
  {
    if n == |events| {
      assert events[..n] == events;
    } else {
      var m := |events| - 1;
      RunPrefix(a, events[..m], n);
      assert events[..m][..n] == events[..n];
      if n == m {
        assert events[..m][..m] == events[..m];
      }
    }
  }

  // ------------------------------------------------------------------ client packet IDs

  predicate Carries(action: Action, id: u64) {
    action.Dispatch? && action.packetId == Some(id)
  }

  /** The packet IDs handed to the outbound side. */
  function DispatchedIds(trace: seq<Action>): set<u64> {
    if trace == [] then {}
    else
      var last := trace[|trace| - 1];
      DispatchedIds(trace[..|trace| - 1]) +
      (if last.Dispatch? && last.packetId.Some? then {last.packetId.value} else {})
  }

  /** The replay filter stands for exactly the IDs dispatched so far. */
  ghost predicate FilterTracks(a: Assoc, trace: seq<Action>) {
    && a.Valid()
    && (a.session.None? ==> DispatchedIds(trace) == {})
    && (a.session.Some? ==> Represents(a.session.value.window, DispatchedIds(trace)))
  }

  lemma ReactTracks(a: Assoc, trace: seq<Action>, e: Event)
    requires FilterTracks(a, trace)
    ensures var (b, action) := React(a, e); FilterTracks(b, trace + [action])
  {
    hide Validate, Represents, Fresh, Unmapped;
    FreshRepresents();
    var (b, action) := React(a, e);
    assert (trace + [action])[..|trace|] == trace;
    if e.FromClient? && e.control.Some? && !e.blocked {
      var c := e.control.value;
      var session := if a.session.Some? then a.session.value else NewSession(c.clientSessionId);
      ValidateExact(session.window, DispatchedIds(trace), c.packetId, U64_MAX);
      assert action == Nothing || action == Dispatch(e.target, e.data, Some(c.packetId));
      if action == Nothing {
        assert DispatchedIds(trace + [action]) == DispatchedIds(trace);
      } else {
        assert DispatchedIds(trace + [action]) == DispatchedIds(trace) + {c.packetId};
      }
    } else {
      assert DispatchedIds(trace + [action]) == DispatchedIds(trace);
    }
  }

  lemma {:induction false} RunTracks(peer: SocketAddr, client: Option<u64>, server: u64, events: seq<Event>)
    ensures var (a, trace) := RunEvents(Create(peer, client, server), events); FilterTracks(a, trace)
  {
    hide React, Represents;
    if events == [] {
      FreshRepresents();
    } else {
      var n := |events| - 1;
      RunTracks(peer, client, server, events[..n]);
      var (a, trace) := RunEvents(Create(peer, client, server), events[..n]);
      ReactTracks(a, trace, events[n]);
    }
  }

  /** A client packet is dispatched, unchanged, exactly when the ACL lets it through and its ID, if it carries
      one, is admissible with respect to the IDs dispatched before it. */
  lemma DispatchExact(peer: SocketAddr, client: Option<u64>, server: u64, events: seq<Event>, i: nat, last: u64)
    requires i < |events| && events[i].FromClient?
    requires IsHighest(last, DispatchedIds(RunEvents(Create(peer, client, server), events).1[..i]))
    ensures var trace, e := RunEvents(Create(peer, client, server), events).1, events[i];
      trace[i] ==
        if !e.blocked &&
          (e.control.Some? ==> Admissible(last, DispatchedIds(trace[..i]), e.control.value.packetId, U64_MAX))
        then Dispatch(e.target, e.data, if e.control.Some? then Some(e.control.value.packetId) else None)
        else Nothing
  {
    var start := Create(peer, client, server);
    RunPrefix(start, events, i);
    RunTracks(peer, client, server, events[..i]);
    FreshRepresents();
    var (a, trace) := RunEvents(start, events[..i]);
    if events[i].control.Some? {
      var c := events[i].control.value;
      var session := if a.session.Some? then a.session.value else NewSession(c.clientSessionId);
      ValidateExact(session.window, DispatchedIds(trace), c.packetId, U64_MAX);
    }
  }

  lemma {:induction false} DispatchedKept(trace: seq<Action>, i: nat, id: u64)
    requires i < |trace| && Carries(trace[i], id)
    ensures id in DispatchedIds(trace)
  {
    if i < |trace| - 1 {
      DispatchedKept(trace[..|trace| - 1], i, id);
    }
  }

  lemma DispatchIsNew(a: Assoc, trace: seq<Action>, e: Event, id: u64)
    requires FilterTracks(a, trace) && Carries(React(a, e).1, id)
    ensures id !in DispatchedIds(trace)
  {
    FreshRepresents();
    var session := if a.session.Some? then a.session.value else NewSession(e.control.value.clientSessionId);
    ValidateExact(session.window, DispatchedIds(trace), id, U64_MAX);
  }

  /** In every run each client packet ID reaches the outbound side at most once. */
  lemma DispatchedAtMostOnce(
    peer: SocketAddr, client: Option<u64>, server: u64, events: seq<Event>, i: nat, j: nat, id: u64)
    requires i < j < |events|
    requires Carries(RunEvents(Create(peer, client, server), events).1[i], id)
    ensures !Carries(RunEvents(Create(peer, client, server), events).1[j], id)
  {
    var start := Create(peer, client, server);
    var trace := RunEvents(start, events).1;
    RunPrefix(start, events, j);
    RunTracks(peer, client, server, events[..j]);
    DispatchedKept(trace[..j], i, id);
    if Carries(trace[j], id) {
      DispatchIsNew(RunEvents(start, events[..j]).0, trace[..j], events[j], id);
    }
  }

  // ------------------------------------------------------------------ server packet IDs

  /** The packet IDs put on responses, in order. */
  function ServerIds(trace: seq<Action>): seq<u64> {
    if trace == [] then []
    else
      var last := trace[|trace| - 1];
      ServerIds(trace[..|trace| - 1]) +
      (if last.Respond? && last.control.Some? then [last.control.value.packetId] else [])
  }

  lemma ReactCounts(a: Assoc, e: Event)
    requires a.Valid()
    ensures var (b, action) := React(a, e);
      if action.Respond? && action.control.Some?
      then action.control.value.packetId == b.serverPacketId == a.serverPacketId + 1
      else b.serverPacketId == a.serverPacketId
  {
    hide Validate, Unmapped;
  }

  /** Server packet IDs are 1, 2, 3, ... with no repetition and no wrap-around, and the state's counter
      is how many were used. */
  lemma {:induction false} ServerIdsCountUp(peer: SocketAddr, client: Option<u64>, server: u64, events: seq<Event>)
    ensures var (a, trace) := RunEvents(Create(peer, client, server), events);
      && |ServerIds(trace)| == a.serverPacketId
      && forall k | 0 <= k < |ServerIds(trace)| :: ServerIds(trace)[k] == k + 1
  {
    hide React;
    var start := Create(peer, client, server);
    if events != [] {
      var n := |events| - 1;
      ServerIdsCountUp(peer, client, server, events[..n]);
      ReactCounts(RunEvents(start, events[..n]).0, events[n]);
      assert RunEvents(start, events).1[..n] == RunEvents(start, events[..n]).1;
    }
  }

  // ------------------------------------------------------------------ session, peer and keep-alive key

  /** Whether some packet with control data passed the ACL. */
  predicate ControlPassed(events: seq<Event>) {
    exists i :: 0 <= i < |events| && events[i].FromClient? && events[i].control.Some? && !events[i].blocked
  }

  lemma {:induction false} SessionExistsWhen(peer: SocketAddr, client: Option<u64>, server: u64, events: seq<Event>)
    ensures RunEvents(Create(peer, client, server), events).0.session.Some? <==> client.Some? || ControlPassed(events)
    ensures var s := RunEvents(Create(peer, client, server), events).0.session;
      client.Some? ==> s.value.id == client.value
  {
    if events != [] {
      var n := |events| - 1;
      SessionExistsWhen(peer, client, server, events[..n]);
      var before := events[..n];
      assert forall i | 0 <= i < n :: before[i] == events[i];
      var e := events[n];
      assert ControlPassed(events) <==> ControlPassed(before) || (e.FromClient? && e.control.Some? && !e.blocked);
    }
  }

  predicate KeyFits(kind: MapKind, key: NatKey) {
    match kind
    case AssociationMap => key.PeerAddrKey?
    case SessionMap => key.SessionIdKey?
  }

  function CreateFor(kind: MapKind, peer: SocketAddr, sessionId: u64, server: u64): (a: Assoc)
    ensures a.Valid()
  {
    Create(peer, if kind.SessionMap? then Some(sessionId) else None, server)
  }

  /** The key the association would report fits its own map exactly unless an address-keyed association
      let a packet with control data through; a session-keyed one always reports its own session. */
  lemma KeepAliveKeyFits(kind: MapKind, peer: SocketAddr, sessionId: u64, server: u64, events: seq<Event>)
    ensures var a := RunEvents(CreateFor(kind, peer, sessionId, server), events).0;
      && (KeyFits(kind, KeyOf(a)) <==> kind.SessionMap? || !ControlPassed(events))
      && (kind.SessionMap? ==> KeyOf(a) == SessionIdKey(sessionId))
  {
    SessionExistsWhen(peer, if kind.SessionMap? then Some(sessionId) else None, server, events);
  }

  lemma KeepAliveReportsKey(a: Assoc, e: Event)
    requires a.Valid()
    ensures React(a, e).1.KeepAlive? ==> React(a, e).1.key == KeyOf(a)
  {
  }

  /** If address-keyed maps see no control data, every keep-alive message an association sends names the very
      entry its packets were queued for. */
  lemma KeepAliveNamesOwnEntry(kind: MapKind, peer: SocketAddr, sessionId: u64, server: u64, events: seq<Event>, i: nat)
    requires forall k | 0 <= k < |events| && events[k].FromClient? ::
      if kind.SessionMap?
      then events[k].control.Some? && events[k].control.value.clientSessionId == sessionId
      else events[k].peer == peer && events[k].control.None?
    requires i < |events| && RunEvents(CreateFor(kind, peer, sessionId, server), events).1[i].KeepAlive?
    ensures RunEvents(CreateFor(kind, peer, sessionId, server), events).1[i].key ==
      if kind.SessionMap? then SessionIdKey(sessionId) else PeerAddrKey(peer)
  {
    hide React;
    var start := CreateFor(kind, peer, sessionId, server);
    RunPrefix(start, events, i);
    KeepAliveReportsKey(RunEvents(start, events[..i]).0, events[i]);
    var before := events[..i];
    assert kind.AssociationMap? ==> !ControlPassed(before) by {
      assert forall k | 0 <= k < i :: before[k] == events[k];
    }
    var client := if kind.SessionMap? then Some(sessionId) else None;
    KeepAliveKeyFits(kind, peer, sessionId, server, before);
    PeerFollowsClient(peer, client, server, before);
    SessionPeerIs(peer, client, before);
  }

  /** A target's packet was seen after the last keep-alive message. */
  predicate ReplyPending(events: seq<Event>, trace: seq<Action>)
    requires |events| == |trace|
  {
    exists j :: 0 <= j < |events| && events[j].FromTarget? && forall k | j < k < |events| :: !trace[k].KeepAlive?
  }

  lemma ReactFlag(a: Assoc, e: Event)
    requires a.Valid()
    ensures var (b, action) := React(a, e);
      && (e.FromTarget? ==> b.keepaliveFlag)
      && (action.KeepAlive? <==> e.KeepaliveTick? && e.accepted && a.keepaliveFlag)
      && (!e.FromTarget? ==> b.keepaliveFlag == (a.keepaliveFlag && !action.KeepAlive?))
  {
    hide Validate, Unmapped;
  }

  lemma {:induction false} FlagIsReplyPending(a: Assoc, events: seq<Event>)
    requires a.Valid() && !a.keepaliveFlag
    ensures RunEvents(a, events).0.keepaliveFlag <==> ReplyPending(events, RunEvents(a, events).1)
  {
    hide React, ReplyPending;
    if events == [] {
      NothingPending();
    } else {
      var n := |events| - 1;
      var (b, before) := RunEvents(a, events[..n]);
      FlagIsReplyPending(a, events[..n]);
      ReactFlag(b, events[n]);
      PendingSnoc(events, RunEvents(a, events).1);
      assert RunEvents(a, events).1[..n] == before;
    }
  }

  lemma NothingPending()
    ensures !ReplyPending([], [])
  {
  }

  lemma PendingSnoc(events: seq<Event>, trace: seq<Action>)
    requires |events| == |trace| > 0
    ensures var n := |events| - 1;
      ReplyPending(events, trace) <==>
        events[n].FromTarget? || (ReplyPending(events[..n], trace[..n]) && !trace[n].KeepAlive?)
  {
    var n := |events| - 1;
    assert forall k | 0 <= k < n :: trace[k] == trace[..n][k] && events[k] == events[..n][k];
    if j :| 0 <= j < n && events[..n][j].FromTarget? && forall k | j < k < n :: !trace[..n][k].KeepAlive? {
      assert !trace[n].KeepAlive? ==> events[j].FromTarget? && forall k | j < k < |events| :: !trace[k].KeepAlive?;
    }
  }

  /** A keep-alive message is sent at a tick exactly when the channel takes it and a target's packet came
      after the last message. */
  lemma KeepAliveExact(peer: SocketAddr, client: Option<u64>, server: u64, events: seq<Event>, i: nat)
    requires i < |events|
    ensures var trace := RunEvents(Create(peer, client, server), events).1;
      trace[i].KeepAlive? <==> events[i].KeepaliveTick? && events[i].accepted && ReplyPending(events[..i], trace[..i])
  {
    hide React, ReplyPending;
    var start := Create(peer, client, server);
    RunPrefix(start, events, i);
    FlagIsReplyPending(start, events[..i]);
    ReactFlag(RunEvents(start, events[..i]).0, events[i]);
  }

  /** Whether a session exists after the events: it came with the association or a packet made it. */
  predicate InSession(client: Option<u64>, events: seq<Event>) {
    client.Some? || ControlPassed(events)
  }

  /** Sender of the latest client packet that found a session, or the first peer. */
  function SessionPeer(first: SocketAddr, client: Option<u64>, events: seq<Event>): SocketAddr {
    if events == [] then first
    else
      var n := |events| - 1;
      if events[n].FromClient? && InSession(client, events[..n]) then events[n].peer
      else SessionPeer(first, client, events[..n])
  }

  /** Sender of the last client packet of a run, if there was one. */
  function LastPeer(first: SocketAddr, events: seq<Event>): SocketAddr {
    if events == [] then first
    else
      var e := events[|events| - 1];
      if e.FromClient? then e.peer else LastPeer(first, events[..|events| - 1])
  }

  /** A client packet, dispatched or not, moves the peer exactly when a session existed before it. */
  lemma {:induction false} PeerFollowsClient(peer: SocketAddr, client: Option<u64>, server: u64, events: seq<Event>)
    ensures RunEvents(Create(peer, client, server), events).0.peer == SessionPeer(peer, client, events)
  {
    if events != [] {
      var n := |events| - 1;
      PeerFollowsClient(peer, client, server, events[..n]);
      SessionExistsWhen(peer, client, server, events[..n]);
      hide ControlPassed, Validate;
    }
  }

  lemma {:induction false} SessionPeerIs(first: SocketAddr, client: Option<u64>, events: seq<Event>)
    ensures client.Some? ==> SessionPeer(first, client, events) == LastPeer(first, events)
    ensures !InSession(client, events) ==> SessionPeer(first, client, events) == first
  {
    if events != [] {
      var n := |events| - 1;
      SessionPeerIs(first, client, events[..n]);
      assert ControlPassed(events[..n]) ==> ControlPassed(events) by {
        assert forall i | 0 <= i < n :: events[..n][i] == events[i];
      }
    }
  }

  /** User of the latest client packet that was dispatched with control data. */
  function LastUser(events: seq<Event>, trace: seq<Action>): Option<nat>
    requires |events| == |trace|
  {
    if events == [] then None
    else
      var n := |events| - 1;
      if events[n].FromClient? && events[n].control.Some? && trace[n].Dispatch? then events[n].control.value.user
      else LastUser(events[..n], trace[..n])
  }

  /** Id of the session: the one the association was made with, or that of the packet that made it. */
  function SessionId(client: Option<u64>, events: seq<Event>): (id: u64)
    requires InSession(client, events)
  {
    if client.Some? then client.value
    else
      var n := |events| - 1;
      if ControlPassed(events[..n]) then SessionId(client, events[..n])
      else
        assert MakesSession(events[n]) by {
          assert forall i | 0 <= i < n :: events[..n][i] == events[i];
        }
        events[n].control.value.clientSessionId
  }

  predicate MakesSession(e: Event) {
    e.FromClient? && e.control.Some? && !e.blocked
  }

  lemma PassedSnoc(events: seq<Event>)
    requires events != []
    ensures ControlPassed(events) <==> ControlPassed(events[..|events| - 1]) || MakesSession(events[|events| - 1])
  {
    var n := |events| - 1;
    assert forall i | 0 <= i < n :: events[..n][i] == events[i];
    assert MakesSession(events[n]) ==> ControlPassed(events);
  }

  lemma ReactSession(a: Assoc, e: Event)
    requires a.Valid()
    ensures var (b, action) := React(a, e);
      && b.serverSessionId == a.serverSessionId
      && (b.session.Some? <==> a.session.Some? || MakesSession(e))
      && (b.session.Some? ==>
        && b.session.value.id ==
             (if a.session.Some? then a.session.value.id else e.control.value.clientSessionId)
        && b.session.value.user ==
             (if e.FromClient? && e.control.Some? && action.Dispatch? then e.control.value.user
              else if a.session.Some? then a.session.value.user else None))
  {
    hide Validate, Unmapped;
  }

  lemma ReactWithoutSession(a: Assoc, e: Event)
    requires a.Valid()
    ensures e.FromClient? && e.control.Some? && React(a, e).1.Dispatch? ==> React(a, e).0.session.Some?
  {
    hide Validate, Unmapped;
  }

  /** Ids and user of the session, read off the history. */
  lemma {:induction false} SessionFollowsClient(peer: SocketAddr, client: Option<u64>, server: u64, events: seq<Event>)
    ensures var (a, trace) := RunEvents(Create(peer, client, server), events);
      && a.serverSessionId == server
      && (a.session.Some? <==> InSession(client, events))
      && (a.session.Some? ==> a.session.value.id == SessionId(client, events))
      && LastUser(events, trace) == if a.session.Some? then a.session.value.user else None
  {
    assert !ControlPassed([]);
    hide React, ControlPassed;
    if events != [] {
      var n := |events| - 1;
      var start := Create(peer, client, server);
      SessionFollowsClient(peer, client, server, events[..n]);
      var (a, trace) := RunEvents(start, events[..n]);
      PassedSnoc(events);
      ReactSession(a, events[n]);
      ReactWithoutSession(a, events[n]);
      assert RunEvents(start, events).1[..n] == trace;
    }
  }

  /** The answer to a target's packet after any run. Without a session it goes to the peer the association was
      made for, without control data. In one it goes to the sender of the latest client packet that found the
      session, with the session's ids, the next unused packet ID and the user of the latest dispatched packet,
      until the IDs are used up. */
  lemma ResponseExact(peer: SocketAddr, client: Option<u64>, server: u64, events: seq<Event>, i: nat)
    requires i < |events| && events[i].FromTarget?
    ensures var trace, before := RunEvents(Create(peer, client, server), events).1, events[..i];
      var used, user := |ServerIds(trace[..i])|, LastUser(before, trace[..i]);
      && used <= U64_MAX
      && trace[i] ==
           if !InSession(client, before) then Respond(peer, Unmapped(events[i].source), events[i].reply, None)
           else if used == U64_MAX then Nothing
           else Respond(SessionPeer(peer, client, before), Unmapped(events[i].source), events[i].reply,
                        Some(ServerControl(SessionId(client, before), server, used + 1, user)))
  {
    hide Unmapped, SessionPeer, LastUser, ServerIds, RunEvents, InSession, SessionId, Create;
    RunPrefix(Create(peer, client, server), events, i);
    ServerIdsCountUp(peer, client, server, events[..i]);
    PeerFollowsClient(peer, client, server, events[..i]);
    SessionPeerIs(peer, client, events[..i]);
    SessionFollowsClient(peer, client, server, events[..i]);
  }

  /** An association of a session-keyed map answers the sender of the latest client packet. */
  lemma SessionResponseExact(peer: SocketAddr, sessionId: u64, server: u64, events: seq<Event>, i: nat)
    requires i < |events| && events[i].FromTarget?
    ensures var trace := RunEvents(CreateFor(SessionMap, peer, sessionId, server), events).1;
      var used, user := |ServerIds(trace[..i])|, LastUser(events[..i], trace[..i]);
      && used <= U64_MAX
      && trace[i] ==
           if used == U64_MAX then Nothing
           else Respond(LastPeer(peer, events[..i]), Unmapped(events[i].source), events[i].reply,
                        Some(ServerControl(sessionId, server, used + 1, user)))
  {
    hide Unmapped, LastPeer, SessionPeer, LastUser, ServerIds, RunEvents;
    ResponseExact(peer, Some(sessionId), server, events, i);
    SessionPeerIs(peer, Some(sessionId), events[..i]);
  }

  /** An association of an address-keyed map that saw no control data answers the peer it was made for. */
  lemma PlainResponseExact(peer: SocketAddr, server: u64, events: seq<Event>, i: nat)
    requires i < |events| && events[i].FromTarget? && !ControlPassed(events[..i])
    ensures RunEvents(CreateFor(AssociationMap, peer, 0, server), events).1[i] ==
      Respond(peer, Unmapped(events[i].source), events[i].reply, None)
  {
    hide Unmapped, ControlPassed, LastUser, ServerIds, RunEvents, SessionPeer;
    ResponseExact(peer, None, server, events, i);
  }

  /** A datagram sent to an IPv4 target over a dual-stack socket comes back under the IPv4 address. */
  lemma UnmappedInverts(a: u32, port: u16)
    ensures Unmapped(SocketAddr(V6(ToIpv6Mapped(a)), port)) == SocketAddr(V4(a), port)
  {
  }

  /** Any other source is shown as it is; a mapped one keeps its port. */
  lemma UnmappedExact(source: SocketAddr)
    ensures Unmapped(source) ==
      if source.ip.V6? && 0xFFFF_0000_0000 <= source.ip.v6 <= 0xFFFF_FFFF_FFFF
      then SocketAddr(V4(source.ip.v6 - 0xFFFF_0000_0000), source.port)
      else source
  {
  }

  // ------------------------------------------------------------------ the association object

  class ClientSessionContext {
    const clientSessionId: u64
    const packetWindowFilter: PacketWindowFilter
    var clientUser: Option<nat>

    ghost const Repr: set<object>

    ghost predicate Valid()
      reads this, Repr
    {
      && this in Repr && packetWindowFilter in Repr && packetWindowFilter.packetRing in Repr
      && packetWindowFilter.Valid()
    }

    function State(): Session
      reads this, packetWindowFilter, packetWindowFilter.packetRing
    {
      Session(clientSessionId, packetWindowFilter.State(), clientUser)
    }

    constructor (id: u64)
      ensures Valid() && fresh(Repr) && State() == NewSession(id)
    {
      clientSessionId := id;
      var filter := new PacketWindowFilter();
      packetWindowFilter := filter;
      clientUser := None;
      Repr := {this, filter, filter.packetRing};
    }
  }

  class UdpAssociationContext {
    var peerAddr: SocketAddr
    var keepaliveFlag: bool
    var clientSession: ClientSessionContext?
    const serverSessionId: u64
    var serverPacketId: u64

    ghost predicate Valid()
      reads this, clientSession, if clientSession == null then {} else clientSession.Repr
    {
      clientSession != null ==> clientSession.Valid() && this !in clientSession.Repr
    }

    ghost function Repr(): set<object>
      reads this
    {
      {this} + if clientSession == null then {} else clientSession.Repr
    }

    ghost function State(): (a: Assoc)
      requires Valid()
      reads this, clientSession, if clientSession == null then {} else clientSession.Repr
      ensures a.Valid()
    {
      Assoc(peerAddr, keepaliveFlag,
            if clientSession == null then None else Some(clientSession.State()),
            serverSessionId, serverPacketId)
    }

    constructor (peer: SocketAddr, clientSessionId: Option<u64>, serverSession: u64)
      ensures Valid() && fresh(Repr()) && State() == Create(peer, clientSessionId, serverSession)
    {
      peerAddr := peer;
      keepaliveFlag := false;
      if clientSessionId.Some? {
        clientSession := new ClientSessionContext(clientSessionId.value);
      } else {
        clientSession := null;
      }
      serverSessionId := serverSession;
      serverPacketId := 0;
    }

    method DispatchReceivedPacket(
      peer: SocketAddr, target: Target, data: Bytes, control: Option<Control>, blocked: bool)
      returns (action: Action)
      requires Valid()
      modifies Repr()
      ensures Valid() && fresh(Repr() - old(Repr()))
      ensures (State(), action) == OnClientPacket(old(State()), peer, target, data, control, blocked)
    {
      if clientSession != null {
        if peer != peerAddr {
          peerAddr := peer;
        }
      }
      if blocked {
        return Nothing;
      }
      if control.None? {
        return Dispatch(target, data, None);
      }
      if clientSession == null {
        clientSession := new ClientSessionContext(control.value.clientSessionId);
      }
      var packetId := control.value.packetId;
      var ok := clientSession.packetWindowFilter.ValidatePacketId(packetId, U64_MAX);
      if !ok {
        return Nothing;
      }
      clientSession.clientUser := control.value.user;
      return Dispatch(target, data, Some(packetId));
    }

    method SendReceivedRespondPacket(source: SocketAddr, reply: Bytes) returns (action: Action)
      requires Valid()
      modifies this
      ensures Valid() && Repr() == old(Repr())
      ensures (State(), action) == OnTargetPacket(old(State()), source, reply)
    {
      keepaliveFlag := true;
      var addr := Unmapped(source);
      if clientSession == null {
        return Respond(peerAddr, addr, reply, None);
      }
      if serverPacketId == U64_MAX {
        return Nothing;
      }
      serverPacketId := serverPacketId + 1;
      var control := ServerControl(
        clientSession.clientSessionId, serverSessionId, serverPacketId, clientSession.clientUser);
      return Respond(peerAddr, addr, reply, Some(control));
    }

    method KeepaliveInterval(accepted: bool) returns (action: Action)
      requires Valid()
      modifies this
      ensures Valid() && Repr() == old(Repr())
      ensures (State(), action) == OnKeepaliveTick(old(State()), accepted)
    {
      if keepaliveFlag {
        var key := if clientSession == null then PeerAddrKey(peerAddr) else SessionIdKey(clientSession.clientSessionId);
        if accepted {
          keepaliveFlag := false;
          return KeepAlive(key);
        }
      }
      return Nothing;
    }

    /** The event loop over a finite run of events. */
    method DispatchPacket(events: seq<Event>) returns (trace: seq<Action>)
      requires Valid()
      modifies Repr()
      ensures Valid() && fresh(Repr() - old(Repr()))
      ensures (State(), trace) == RunEvents(old(State()), events)
    {
      trace := [];
      for i := 0 to |events|
        invariant Valid() && fresh(Repr() - old(Repr()))
        invariant (State(), trace) == RunEvents(old(State()), events[..i])
      {
        var action: Action;
        match events[i] {
          case FromClient(peer, target, data, control, blocked) =>
            action := DispatchReceivedPacket(peer, target, data, control, blocked);
          case FromTarget(source, reply) =>
            action := SendReceivedRespondPacket(source, reply);
          case KeepaliveTick(accepted) =>
            action := KeepaliveInterval(accepted);
        }
        assert events[..i + 1][..i] == events[..i];
        trace := trace + [action];
      }
      assert events[..|events|] == events;
    }
  }
}
