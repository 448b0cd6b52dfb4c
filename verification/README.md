# Verified model of the proxy core

This project models the parts of the vendored `shadowsocks-rust` crates that decide what the obfuscation proxy does
with a packet, a name, an address or a header, and proves properties of them in Dafny. `dafny verify dfyconfig.toml`
checks everything.

| file | component |
|---|---|
| `PacketWindow.dfy` | the replay window: a ring bitmap that stands for an unbounded set of packet IDs (the scheme of section 2 of RFC 6479) |
| `UdpAssociation.dfy` | one UDP association of the server: client packets, responses, keep-alive messages |
| `NatMaps.dfy` | the associations of one server: packets queued by key, and associations dropped by the bounded map |
| `Samples.dfy` | order statistics and spread of a list of latencies, with 32-bit totals |
| `ServerStat.dfy` | statistics and score of a probed server |
| `ScoreHistory.dfy` | the same over whole histories of probes: what the figures mean, and when the score stays in its range |
| `EvenProbes.dfy` | histories of evenly spaced probes, and the worst of them |
| `PingBalancer.dfy` | selection of the best server by two interleaved checkers, and replacement of the server list |
| `BalancerRuns.dfy` | for which server lists the best server stays enabled in every run of the checkers |
| `BalancerReplay.dfy` | each protocol's state as a replay of its own probes, its guarantees by its own weights, and which context is in use |
| `SubDomainsTree.dfy` | the pruning suffix tree of domain names |
| `HostPatterns.dfy` | the regular expressions the ACL loader recognises, and what they match |
| `CharacterClasses.dfy` | what lower-casing does to the character classes of the other expressions |
| `Acl.dfy` | the rewriting of recognised expressions to tree and set rules, host lookup, address rules |
| `LookupRace.dfy` | the race between local and remote lookup of a name |
| `PtrNames.dfy` | routing of reverse names |
| `LocalContext.dfy` | the reverse lookup cache |
| `Resolver.dfy` | trying resolved addresses in order, and two families in a race (in the style of section 5 of RFC 8305) |
| `CommaLists.dfy` | the comma-separated lists in header values, by positions in the text |
| `HttpHeaders.dfy` | hop-by-hop headers (section 6.1 of RFC 7230) and persistence |
| `Persistence.dfy` | when the persistence check agrees with section 6.3 of RFC 7230 |
| `Socks5.dfy`, `Socks4.dfy` | wire formats of RFC 1928, RFC 1929 and SOCKS4/4a |
| `SocksLayout.dfy` | the SOCKS messages byte by byte, and why a message is not read |
| `Utf8Text.dfy` | which byte strings are text (section 3 of RFC 3629) |
| `Words.dfy`, `DomainNames.dfy`, `Numbers.dfy`, `Wire.dfy`, `Net.dfy`, `Prelude.dfy` | bits of machine words, names and labels, digits in a base, byte strings, addresses, shared types |

## How it is built

Objects whose methods update fields in the source are classes here; each method is proved against a specification
function on values, and the lemmas are about that function and about whole runs of it. Where the source keeps state in an
object, a ghost field or a ghost history says what the state stands for, and `Valid()` ties the two together. Expressions
and decisions are functions.

- I/O is a parameter: an ACL answer, the result and duration of a connection attempt, the choice of the runtime between
  two ready futures, the clock, whether a channel takes a message.
- Machine integers are explicit: subset types bound them, and additions that are compiled without overflow checks are
  written with their wrap-around (`WrappingAdd`, `LengthByte`). With overflow checks enabled the same additions panic
  instead, on the same inputs.
- Floating point is modelled by reals. The standard deviation is kept as its square, so the score, a floor of an
  expression with a square root, is defined as the largest integer the expression reaches; `ScoreIsCast` ties it to the
  formula of the source.
- Concurrency is a state machine over atomic steps. The selection loops contain no suspension point and both checkers run
  in one task, so a selection is one step and every probe result is one.
- Rust strings are their UTF-8 bytes in the wire formats, and lists of characters where only ASCII text is compared.

## Where the code does less, or other, than its comments and names suggest

- `server_stat.rs`: latencies are added up in 32 bits. The spread is the sample variance exactly when the latencies of the
  window add up (`ComputedVarianceExact`); it is sure to stay in its range exactly when as many time-outs as the window holds
  latencies would add up (`ComputedVarianceBoundedIff`, `ReachableInRangeIff`, `RealScoreBoundedIff`). Particular latencies may
  wrap and stay in range. Two latencies of `u32::MAX` leave it (`WrapAroundBreaksBounds`).
- `ping_balancer.rs`: a score can saturate at the initial score, and then a disabled first server is selected
  (`SaturationThreshold`, `SelectionEnabledIff`, `FeatherweightsSelectDisabled`). `BestServerUsable` therefore asks that the
  first server is enabled or one enabled server weighs more than 10000 / `u32::MAX`. For the checkers of one list
  `AlwaysUsableIff` says exactly when the best server stays enabled: then, or if only one server is enabled for the protocol
  and nothing ever checks it. Evenly spaced probes are enough to saturate a score (`EvenSaturationThreshold`). All of these
  assume that latencies do not exceed the probe time-out and that window sums fit in 32 bits.
- `acl/mod.rs`: a recognised expression keeps its meaning only in the shapes of `RewriteExactIff`; without `$`, with a final
  dot, or with a required dot before the name it does not. The documentation of the rule file gives `[bypass_all]` as black
  list mode and `[proxy_all]` as white list mode; the loader sets the opposite (lines 392-400). The model starts from the
  mode the loader has set. An expression that is not recognised is stored in lower case, which turns the classes `\D`, `\W`
  and `\S` into their complements (`LoweringKeepsIff`, `CapitalClassDiffers`).
- `socks5.rs`: the cursor reader panics on a domain address that ends inside its port (`CursorPanicsIff`); the one-byte
  lengths of method lists and passwords are truncated, not checked, by the writers (`HandshakeReadsBack`, `PasswdReadsBack`).
- `udprelay.rs`: an address-keyed association that lets a packet with control data through would report a key of the wrong
  kind (`KeepAliveKeyFits`); that it never sees one depends on the socket layer, which is not part of this model.
- `udprelay.rs`: the replay filter goes with its association. When the bounded map drops the association of a session, the
  same packet goes out again (`EvictionForgets`); `SentAgainIff` says exactly when an ID that has gone out goes out again.
- `http/utils.rs`: `close` counts only as a whole value, so `Connection: close, te` keeps an HTTP/1.1 connection
  (`CloseAmongOthersIgnored`); `AgreesWithStandardIff` says for which headers the check agrees with RFC 7230.
- `context.rs`: without an ACL the cache may hold exceptions, but routing ignores them (`BypassFollowsLatest`).

## Model

| member | source | states |
|---|---|---|
| `PacketWindow.RunExact` | obfuscator/src/main/rust/shadowsocks-rust/crates/shadowsocks-service/src/net/packet_window.rs:47-79 | In every run of calls, each answer is true exactly when the ID is below the limit, above the highest accepted ID or at most 8128 below it, and not accepted since the last reset; the accepted set is read off the earlier calls and answers alone |
| `PacketWindow.NoReplay` | obfuscator/src/main/rust/shadowsocks-rust/crates/shadowsocks-service/src/net/packet_window.rs:44-79 | Between two resets no ID is accepted twice |
| `PacketWindow.ResetAnswersAsFresh` | obfuscator/src/main/rust/shadowsocks-rust/crates/shadowsocks-service/src/net/packet_window.rs:38-42 | Clearing only block 0 is enough: from any state, every later run is answered as by a new filter |
| `PacketWindow.ValidateExact` | obfuscator/src/main/rust/shadowsocks-rust/crates/shadowsocks-service/src/net/packet_window.rs:47-79 | One call answers by the rule on the accepted set and keeps the ring exact on the 128 live blocks, with the highest accepted ID as `last` |
| `PacketWindow.AdvanceRepresents` | obfuscator/src/main/rust/shadowsocks-rust/crates/shadowsocks-service/src/net/packet_window.rs:53-66 | Moving the window forgets no live ID and leaves no stale bit in a live block, for any distance |
| `PacketWindow.CheckAndSetRepresents` | obfuscator/src/main/rust/shadowsocks-rust/crates/shadowsocks-service/src/net/packet_window.rs:72-78 | Setting a live bit adds exactly one ID to the represented set and reports whether it was new |
| `PacketWindow.ResetRepresents` | obfuscator/src/main/rust/shadowsocks-rust/crates/shadowsocks-service/src/net/packet_window.rs:39-42 | After a reset the live blocks represent the empty set whatever the other 127 words hold |
| `PacketWindow.RunRepresents` | obfuscator/src/main/rust/shadowsocks-rust/crates/shadowsocks-service/src/net/packet_window.rs:29-79 | After every run the ring represents exactly the IDs accepted since the last reset |
| `PacketWindow.PacketWindowFilter.ValidatePacketId` | obfuscator/src/main/rust/shadowsocks-rust/crates/shadowsocks-service/src/net/packet_window.rs:47-79 | The in-place method keeps the representation, answers by the rule, adds the ID exactly when it answers true, and no 64-bit step overflows |
| `PacketWindow.PacketWindowFilter.ClearBlocks` | obfuscator/src/main/rust/shadowsocks-rust/crates/shadowsocks-service/src/net/packet_window.rs:62-65 | The clearing loop zeroes the words of the passed blocks and no other |
| `PacketWindow.PacketWindowFilter.Reset` | obfuscator/src/main/rust/shadowsocks-rust/crates/shadowsocks-service/src/net/packet_window.rs:39-42 | The method leaves the filter representing the empty set |
| `Words.BitOfOr` | obfuscator/src/main/rust/shadowsocks-rust/crates/shadowsocks-service/src/net/packet_window.rs:74-78 | Bitwise or sets exactly the bits of both words |
| `Words.OrPow2Same` | obfuscator/src/main/rust/shadowsocks-rust/crates/shadowsocks-service/src/net/packet_window.rs:76-78 | Setting a bit changes the word exactly when the bit was clear |
| `UdpAssociation.DispatchExact` | obfuscator/src/main/rust/shadowsocks-rust/crates/shadowsocks-service/src/server/udprelay.rs:602-663 | In every run a client packet goes out, with its own target and data, exactly when the ACL lets it through and its ID, if any, is admissible after the IDs already sent |
| `UdpAssociation.DispatchedAtMostOnce` | obfuscator/src/main/rust/shadowsocks-rust/crates/shadowsocks-service/src/server/udprelay.rs:635-662 | In every run of one association each client packet ID reaches the outbound side at most once |
| `UdpAssociation.ServerIdsCountUp` | obfuscator/src/main/rust/shadowsocks-rust/crates/shadowsocks-service/src/server/udprelay.rs:802-828 | Packet IDs on responses are 1, 2, 3, ... in every run and never wrap |
| `UdpAssociation.ResponseExact` | obfuscator/src/main/rust/shadowsocks-rust/crates/shadowsocks-service/src/server/udprelay.rs:770-852 | After any run of any association a target's packet is answered without control data to the first peer if there is no session; otherwise to the sender of the latest client packet that found the session, with the ids of the session, the next unused packet ID and the user of the latest dispatched packet; nothing is sent once the IDs are used up |
| `UdpAssociation.SessionResponseExact` | obfuscator/src/main/rust/shadowsocks-rust/crates/shadowsocks-service/src/server/udprelay.rs:770-852 | In a session every response goes to the sender of the latest client packet, with the session's ids, the next unused packet ID and the user of the latest dispatched packet; nothing is sent once the IDs are used up |
| `UdpAssociation.PlainResponseExact` | obfuscator/src/main/rust/shadowsocks-rust/crates/shadowsocks-service/src/server/udprelay.rs:787-801 | Without a session every response goes to the original peer and carries no control data |
| `UdpAssociation.KeepAliveKeyFits` | obfuscator/src/main/rust/shadowsocks-rust/crates/shadowsocks-service/src/server/udprelay.rs:74-86 | The key an association reports fits its map's kind exactly when the map is session-keyed or no packet with control data passed the ACL (also lines 565-573) |
| `UdpAssociation.KeepAliveNamesOwnEntry` | obfuscator/src/main/rust/shadowsocks-rust/crates/shadowsocks-service/src/server/udprelay.rs:338-387 | If address-keyed maps see no control data, every keep-alive message names the very entry the packets were queued for (also lines 565-580) |
| `UdpAssociation.KeepAliveExact` | obfuscator/src/main/rust/shadowsocks-rust/crates/shadowsocks-service/src/server/udprelay.rs:565-581 | A keep-alive message is sent at a tick exactly when the channel takes it and a target's packet came after the last message (also lines 773-774) |
| `UdpAssociation.SessionExistsWhen` | obfuscator/src/main/rust/shadowsocks-rust/crates/shadowsocks-service/src/server/udprelay.rs:506 | A session exists exactly when the association was made with one or a packet with control data passed the ACL (also lines 638-640) |
| `UdpAssociation.PeerFollowsClient` | obfuscator/src/main/rust/shadowsocks-rust/crates/shadowsocks-service/src/server/udprelay.rs:609-617 | In every run of any association a client packet, dispatched or not, moves the peer exactly when a session existed before it |
| `UdpAssociation.UnmappedInverts` | obfuscator/src/main/rust/shadowsocks-rust/crates/shadowsocks-service/src/server/udprelay.rs:749-754 | A source address seen over a dual-stack socket is shown as the IPv4 address it maps (also lines 776-785) |
| `UdpAssociation.UnmappedExact` | obfuscator/src/main/rust/shadowsocks-rust/crates/shadowsocks-service/src/server/udprelay.rs:776-785 | A source in ::ffff:0:0/96 is shown as the IPv4 address it carries with its own port; any other source is shown as it is |
| `UdpAssociation.UdpAssociationContext.DispatchReceivedPacket` | obfuscator/src/main/rust/shadowsocks-rust/crates/shadowsocks-service/src/server/udprelay.rs:602-663 | The method on the association object, with its owned filter, makes the transition the run lemmas are about |
| `UdpAssociation.UdpAssociationContext.SendReceivedRespondPacket` | obfuscator/src/main/rust/shadowsocks-rust/crates/shadowsocks-service/src/server/udprelay.rs:770-853 | The same for responses |
| `UdpAssociation.UdpAssociationContext.DispatchPacket` | obfuscator/src/main/rust/shadowsocks-rust/crates/shadowsocks-service/src/server/udprelay.rs:516-583 | The event loop produces exactly the modelled run |
| `NatMaps.RunMapFollows` | obfuscator/src/main/rust/shadowsocks-rust/crates/shadowsocks-service/src/server/udprelay.rs:338-387 | After every run the entry of a key is what the history of that key alone says: it exists exactly if a packet of the key was accepted since the last eviction; the packets its association took, followed by those waiting, are the accepted ones in order; and it has acted exactly as a lone association made for the first of them acts on those packets, the replies and the ticks of its key (also lines 431-437 and 516-583) |
| `NatMaps.ReceiveExact` | obfuscator/src/main/rust/shadowsocks-rust/crates/shadowsocks-service/src/server/udprelay.rs:431-437 | In every run a received packet is refused exactly when a session-keyed map misses its control data or 1024 accepted packets of its key are waiting (also lines 338-387 and 493-496) |
| `NatMaps.EventReaches` | obfuscator/src/main/rust/shadowsocks-rust/crates/shadowsocks-service/src/server/udprelay.rs:516-583 | In every run a delivery comes to something exactly if an accepted packet waits, and a reply, a tick or an eviction exactly if one was accepted since the last eviction |
| `NatMaps.SendExact` | obfuscator/src/main/rust/shadowsocks-rust/crates/shadowsocks-service/src/server/udprelay.rs:338-387 | One packet that is accepted goes to the end of its key's queue, or makes the key's association; every other entry stays as it is |
| `NatMaps.KeyIsAddressed` | obfuscator/src/main/rust/shadowsocks-rust/crates/shadowsocks-service/src/server/udprelay.rs:338-356 | The key of a packet is its peer's whole address in an address-keyed map and its client session id in a session-keyed one (also line 366) |
| `NatMaps.DeliverExact` | obfuscator/src/main/rust/shadowsocks-rust/crates/shadowsocks-service/src/server/udprelay.rs:338-387 | In every run of a server's map, evictions included, the packet taken at a delivery is the first accepted one of its key not yet taken; it goes out, with its own target and data, exactly when the ACL lets it through and its ID, if it carries one, is admissible after the IDs sent by its key's association since the last one was dropped (also lines 602-663) |
| `NatMaps.SentAgainIff` | obfuscator/src/main/rust/shadowsocks-rust/crates/shadowsocks-service/src/server/udprelay.rs:338-387 | A packet whose ID has gone out before goes out again exactly when the ACL lets it through, the association was dropped in between, and the ID is admissible after what was sent since |
| `NatMaps.TwiceNeedsEviction` | obfuscator/src/main/rust/shadowsocks-rust/crates/shadowsocks-service/src/server/udprelay.rs:338-387 | A packet ID of one key goes out twice only if its association was dropped in between |
| `NatMaps.EvictionForgets` | obfuscator/src/main/rust/shadowsocks-rust/crates/shadowsocks-service/src/server/udprelay.rs:338-387 | A concrete run: queue, send, drop, queue and send the same packet; it goes out twice, for every ID below the limit |
| `NatMaps.RunMapTracks` | obfuscator/src/main/rust/shadowsocks-rust/crates/shadowsocks-service/src/server/udprelay.rs:338-387 | After every run each association's filter stands for exactly the IDs it sent itself, and in a session-keyed map its keep-alive key is its own |
| `NatMaps.SessionKeepAlivesMatch` | obfuscator/src/main/rust/shadowsocks-rust/crates/shadowsocks-service/src/server/udprelay.rs:74-86 | In a session-keyed map every keep-alive message names the entry it comes from, so the arm for keys of the wrong kind is not reached |
| `NatMaps.NatMap.Send` | obfuscator/src/main/rust/shadowsocks-rust/crates/shadowsocks-service/src/server/udprelay.rs:338-387 | The branches on kind, missing control data and known key make the modelled transition: the queue of the packet's key, told by its peer or its client session id, gains the packet at its end or is made with it; a refused packet changes nothing (also lines 431-437) |
| `Samples.VarianceBounded` | obfuscator/src/main/rust/shadowsocks-rust/crates/shadowsocks-service/src/local/loadbalancing/server_stat.rs:48-55 | For two or more values in [0, top] the corrected sample variance is at most top^2 / 2, the square of the normalisation constant (also lines 151-164) |
| `Samples.DeviationFromMean` | obfuscator/src/main/rust/shadowsocks-rust/crates/shadowsocks-service/src/local/loadbalancing/server_stat.rs:157-164 | Measuring from another centre adds n times the squared offset |
| `Samples.ComputedVarianceExact` | obfuscator/src/main/rust/shadowsocks-rust/crates/shadowsocks-service/src/local/loadbalancing/server_stat.rs:153-164 | The computed spread is the sample variance exactly when the latencies add up in 32 bits |
| `Samples.ComputedVarianceBoundedIff` | obfuscator/src/main/rust/shadowsocks-rust/crates/shadowsocks-service/src/local/loadbalancing/server_stat.rs:48-55 | For n > 1 values in [0, top] the computed spread, wrap-around included, never exceeds top^2 / 2 exactly when n * top fits in 32 bits (also lines 151-164) |
| `Samples.OverflowWitness` | obfuscator/src/main/rust/shadowsocks-rust/crates/shadowsocks-service/src/local/loadbalancing/server_stat.rs:151-164 | When n * top does not fit, n values in [0, top] whose total wraps to 0 get a spread above top^2 / 2 |
| `Samples.MedianBetweenMiddles` | obfuscator/src/main/rust/shadowsocks-rust/crates/shadowsocks-service/src/local/loadbalancing/server_stat.rs:140-147 | The computed median lies between the two middle order statistics exactly when their sum fits in 32 bits, and never exceeds the largest value |
| `Samples.MedianExact` | obfuscator/src/main/rust/shadowsocks-rust/crates/shadowsocks-service/src/local/loadbalancing/server_stat.rs:140-147 | The median is the middle value of an odd number, and of an even number half the sum of the two middle ones rounded down, or half of what 32 bits leave of that sum |
| `Samples.MedianSplitsInHalf` | obfuscator/src/main/rust/shadowsocks-rust/crates/shadowsocks-service/src/local/loadbalancing/server_stat.rs:137-147 | Then at least half of the unsorted latencies are at most the median and at least half are at least the median |
| `ServerStats.ScoreIsCast` | obfuscator/src/main/rust/shadowsocks-rust/crates/shadowsocks-service/src/local/loadbalancing/server_stat.rs:74-101 | The score computed without a square root is the saturated floor of the weighted real score, in every state with a non-negative failure rate, wrapped ones included |
| `ServerStats.ScoreInFull` | obfuscator/src/main/rust/shadowsocks-rust/crates/shadowsocks-service/src/local/loadbalancing/server_stat.rs:74-101 | The same with every constant spelled: latency, failures and deviation weigh 1, 3 and 1, the deviation is relative to that of the samples 0 and time-out, and the divisor is the user's weight or 1/8388608 if it is below that |
| `ServerStats.NewServerScore` | obfuscator/src/main/rust/shadowsocks-rust/crates/shadowsocks-service/src/local/loadbalancing/server_stat.rs:57-72 | A new server is rated as one that failed every probe and took the whole time-out: the saturated floor of 8000 / weight |
| `ServerStats.RealScoreBounded` | obfuscator/src/main/rust/shadowsocks-rust/crates/shadowsocks-service/src/local/loadbalancing/server_stat.rs:74-100 | In range, each normalised term is in [0, 1] and the real score, before the cast, in [0, 10000 / clamped weight] |
| `ServerStats.ScoreBounded` | obfuscator/src/main/rust/shadowsocks-rust/crates/shadowsocks-service/src/local/loadbalancing/server_stat.rs:85-100 | The cast score times the clamped weight is at most 10000 |
| `ServerStats.ScoreBelowMax` | obfuscator/src/main/rust/shadowsocks-rust/crates/shadowsocks-service/src/local/loadbalancing/server_stat.rs:85-100 | If 10000 / clamped weight is below u32::MAX the cast does not saturate |
| `ScoreHistories.SaturationThreshold` | obfuscator/src/main/rust/shadowsocks-rust/crates/shadowsocks-service/src/local/loadbalancing/server_stat.rs:85-100 | For a weight, no history of probes whose window sums fit in 32 bits brings the score to u32::MAX exactly when 10000 / clamped weight is below u32::MAX; the worst history is given (also lines 103-169) |
| `EvenProbes.EvenSaturationThreshold` | obfuscator/src/main/rust/shadowsocks-rust/crates/shadowsocks-service/src/local/loadbalancing/server_stat.rs:85-100 | The same threshold for histories of evenly spaced probes, at every distance within the window (also lines 103-169) |
| `EvenProbes.EvenEndsWorst` | obfuscator/src/main/rust/shadowsocks-rust/crates/shadowsocks-service/src/local/loadbalancing/server_stat.rs:103-169 | Evenly spaced, a latency of zero, the largest one and then failures until both have left the window bring round-trip time, failure rate and spread to their largest at once |
| `ServerStats.FirstErrorSaturates` | obfuscator/src/main/rust/shadowsocks-rust/crates/shadowsocks-service/src/local/loadbalancing/server_stat.rs:57-101 | After one failed probe a new server scores u32::MAX exactly when its clamped weight is at most 8000 / u32::MAX |
| `ServerStats.ScoreMonotone` | obfuscator/src/main/rust/shadowsocks-rust/crates/shadowsocks-service/src/local/loadbalancing/server_stat.rs:89-97 | Lower latency, fewer errors, smaller spread and higher weight never make the score worse, in any two states of servers with the same time-out |
| `ServerStats.FailuresDominate` | obfuscator/src/main/rust/shadowsocks-rust/crates/shadowsocks-service/src/local/loadbalancing/server_stat.rs:81-97 | At equal weight a server that always fails never scores better than one that never fails and whose latency and spread are in range |
| `ScoreHistories.ReachableInRangeIff` | obfuscator/src/main/rust/shadowsocks-rust/crates/shadowsocks-service/src/local/loadbalancing/server_stat.rs:57-169 | For given probe times and failures, every choice of latencies up to the time-out keeps every normalised term in [0, 1] after every push exactly when each window holds so few latencies that as many time-outs would add up in 32 bits |
| `ScoreHistories.RealScoreBoundedIff` | obfuscator/src/main/rust/shadowsocks-rust/crates/shadowsocks-service/src/local/loadbalancing/server_stat.rs:74-169 | When windows hold at most n > 1 latencies, the real score stays within 10000 / weight in all histories exactly when n * max_server_rtt fits in 32 bits |
| `ScoreHistories.WithinTopIs` | obfuscator/src/main/rust/shadowsocks-rust/crates/shadowsocks-service/src/local/loadbalancing/server_stat.rs:89-100 | The root-free form of that bound is the bound on the weighted real score |
| `ScoreHistories.WrapAroundBreaksBounds` | obfuscator/src/main/rust/shadowsocks-rust/crates/shadowsocks-service/src/local/loadbalancing/server_stat.rs:143-164 | The shortest failing history: after two latencies of u32::MAX the spread is above its maximum and the round-trip time below both |
| `ScoreHistories.ReachableInRange` | obfuscator/src/main/rust/shadowsocks-rust/crates/shadowsocks-service/src/local/loadbalancing/server_stat.rs:57-169 | In every state reached by a history whose window sums fit in 32 bits, stale figures included, every normalised term is in [0, 1] |
| `ScoreHistories.QueueIsRecent` | obfuscator/src/main/rust/shadowsocks-rust/crates/shadowsocks-service/src/local/loadbalancing/server_stat.rs:103-118 | With a monotone clock the queue after every push is the whole history cut to the window, and not empty |
| `ScoreHistories.FiguresDescribeHistory` | obfuscator/src/main/rust/shadowsocks-rust/crates/shadowsocks-service/src/local/loadbalancing/server_stat.rs:120-169 | After every push the failure rate is the error fraction of the recent history; the round-trip time lies between its two middle latencies exactly when they add up in 32 bits; spread and mean are those of its latencies exactly when all add up; with too few latencies the old figures stay |
| `ServerStats.ServerStat.PushScore` | obfuscator/src/main/rust/shadowsocks-rust/crates/shadowsocks-service/src/local/loadbalancing/server_stat.rs:103-118 | The method with its popping loop makes the modelled transition and returns the cast score |
| `ServerStats.ServerStat.RecalculateScore` | obfuscator/src/main/rust/shadowsocks-rust/crates/shadowsocks-service/src/local/loadbalancing/server_stat.rs:120-169 | The same for the recalculation |
| `ServerStats.Spread` | obfuscator/src/main/rust/shadowsocks-rust/crates/shadowsocks-service/src/local/loadbalancing/server_stat.rs:150-164 | The two summing loops compute the mean and variance from the wrapped total |
| `ServerStats.ServerScore.PushScore` | obfuscator/src/main/rust/shadowsocks-rust/crates/shadowsocks-service/src/local/loadbalancing/server_data.rs:38-45 | The published score is the score of the updated statistics |
| `ServerStats.ServerScore.constructor` | obfuscator/src/main/rust/shadowsocks-rust/crates/shadowsocks-service/src/local/loadbalancing/server_data.rs:22-30 | A new server publishes u32::MAX |
| `PingBalancer.SelectBest` | obfuscator/src/main/rust/shadowsocks-rust/crates/shadowsocks-service/src/local/loadbalancing/ping_balancer.rs:442-450 | The selection loop finds the first index of the smallest score |
| `PingBalancer.FinishSelectsBest` | obfuscator/src/main/rust/shadowsocks-rust/crates/shadowsocks-service/src/local/loadbalancing/ping_balancer.rs:437-503 | A finished check of a protocol with some server whose score cannot saturate selects the first probed server whose current statistics score smallest among all scored ones |
| `PingBalancer.SelectionEnabledIff` | obfuscator/src/main/rust/shadowsocks-rust/crates/shadowsocks-service/src/local/loadbalancing/ping_balancer.rs:442-451 | If only probed servers have scores, the selection takes an enabled server exactly when some score is below the initial one or the first server is enabled |
| `PingBalancer.StepSound` | obfuscator/src/main/rust/shadowsocks-rust/crates/shadowsocks-service/src/local/loadbalancing/ping_balancer.rs:388-609 | Every atomic step of either checker keeps the context's invariant |
| `PingBalancer.RunSound` | obfuscator/src/main/rust/shadowsocks-rust/crates/shadowsocks-service/src/local/loadbalancing/ping_balancer.rs:374-380 | The invariant holds in every interleaving of both checkers, replacement of the list, leftover checkers of replaced contexts, and failures reported for servers handed out earlier (also lines 219-222, 611-658 and 723-757) |
| `PingBalancer.BestServerUsable` | obfuscator/src/main/rust/shadowsocks-rust/crates/shadowsocks-service/src/local/loadbalancing/ping_balancer.rs:219-228 | In every such run a context's best indices lie in its own list, and name an enabled server whenever the mode serves the protocol, some server is enabled for it, and either the first server is or one enabled server weighs enough not to saturate |
| `BalancerRuns.AlwaysUsableIff` | obfuscator/src/main/rust/shadowsocks-rust/crates/shadowsocks-service/src/local/loadbalancing/ping_balancer.rs:388-609 | For every server list, with or without checks of the best server alone: the best server is enabled after every run of the checkers exactly when the first server is, or one probed server weighs enough not to saturate, or the only probed one is never checked; the same for runs whose probes end at equal distances (also lines 353-382 and 611-658) |
| `BalancerRuns.UsableAfter` | obfuscator/src/main/rust/shadowsocks-rust/crates/shadowsocks-service/src/local/loadbalancing/ping_balancer.rs:388-609 | Under that condition on the list every run leaves an enabled best server |
| `BalancerRuns.SomeRunFails` | obfuscator/src/main/rust/shadowsocks-rust/crates/shadowsocks-service/src/local/loadbalancing/ping_balancer.rs:388-609 | Without it some run, evenly paced if the window allows, ends with no enabled best server |
| `BalancerReplay.ReplayExact` | obfuscator/src/main/rust/shadowsocks-rust/crates/shadowsocks-service/src/local/loadbalancing/ping_balancer.rs:374-380 | In every run, with replacements, leftovers and reported failures, a protocol's records and best index in a context are what replaying its own probes and selections makes of new records and the initial index of its list (also lines 388-609 and 779-800) |
| `BalancerReplay.UdpIgnoresTcpWeights` | obfuscator/src/main/rust/shadowsocks-rust/crates/shadowsocks-service/src/local/loadbalancing/ping_balancer.rs:347-351 | In any two runs, contexts whose lists agree on modes and UDP weights have the same UDP records and best index after the same UDP probes and selections, whatever the TCP weights (also lines 411-419) |
| `BalancerReplay.TcpIgnoresUdpWeights` | obfuscator/src/main/rust/shadowsocks-rust/crates/shadowsocks-service/src/local/loadbalancing/ping_balancer.rs:343-345 | The same for TCP, whatever the UDP weights (also lines 400-409) |
| `BalancerReplay.TcpAlwaysUsableIff` | obfuscator/src/main/rust/shadowsocks-rust/crates/shadowsocks-service/src/local/loadbalancing/ping_balancer.rs:388-609 | For every list, told by modes and weights: the best server takes TCP clients after every run of the checkers exactly when the first server does, or TCP is served and some TCP server weighs more than 10000 / u32::MAX or is the only one and never checked (also lines 343-345) |
| `BalancerReplay.UdpAlwaysUsableIff` | obfuscator/src/main/rust/shadowsocks-rust/crates/shadowsocks-service/src/local/loadbalancing/ping_balancer.rs:388-609 | The same for UDP (also lines 347-351) |
| `BalancerReplay.BestServersTakeClients` | obfuscator/src/main/rust/shadowsocks-rust/crates/shadowsocks-service/src/local/loadbalancing/ping_balancer.rs:219-228 | In every run of the balancer the best server of a served protocol has a mode and a positive weight for it, if its list has such a server and the first one is or one of them weighs more than 10000 / u32::MAX |
| `BalancerReplay.StartAllExact` | obfuscator/src/main/rust/shadowsocks-rust/crates/shadowsocks-service/src/local/loadbalancing/ping_balancer.rs:398-435 | A check of all servers probes, for each served protocol with two or more servers of fitting mode and positive weight, all of these and no other, and selects for these protocols; without such a protocol there is no check |
| `BalancerReplay.StartBestExact` | obfuscator/src/main/rust/shadowsocks-rust/crates/shadowsocks-service/src/local/loadbalancing/ping_balancer.rs:506-548 | A check of the best servers probes the current best server of each served protocol it is enabled for, and selects for these protocols |
| `BalancerReplay.TasksExact` | obfuscator/src/main/rust/shadowsocks-rust/crates/shadowsocks-service/src/local/loadbalancing/ping_balancer.rs:388-609 | What each step does to the two checks, and that checks of the best servers may begin once a check of all servers has ended |
| `BalancerReplay.CurrentExact` | obfuscator/src/main/rust/shadowsocks-rust/crates/shadowsocks-service/src/local/loadbalancing/ping_balancer.rs:694-703 | In every run the context in use is the one put in use last, and the servers handed out are the best TCP servers of the contexts then in use (also lines 723-760) |
| `PingBalancer.FeatherweightsSelectDisabled` | obfuscator/src/main/rust/shadowsocks-rust/crates/shadowsocks-service/src/local/loadbalancing/ping_balancer.rs:388-470 | A concrete run of one check of three servers selects a disabled first server |
| `PingBalancer.InitialSound` | obfuscator/src/main/rust/shadowsocks-rust/crates/shadowsocks-service/src/local/loadbalancing/ping_balancer.rs:106-162 | A newly built context satisfies the invariant (also lines 306-322) |
| `PingBalancer.FindBestIdx` | obfuscator/src/main/rust/shadowsocks-rust/crates/shadowsocks-service/src/local/loadbalancing/ping_balancer.rs:106-162 | For each protocol the initial index is the first server whose mode is not the other protocol's alone and whose weight for this protocol is positive, or 0 if there is none or the balancer's mode does not serve the protocol |
| `PingBalancer.PingBalancerContext.BeginCheckOnce` | obfuscator/src/main/rust/shadowsocks-rust/crates/shadowsocks-service/src/local/loadbalancing/ping_balancer.rs:388-435 | The method decides what one full check probes and for which protocols it selects |
| `PingBalancer.PingBalancerContext.CheckUpdateScore` | obfuscator/src/main/rust/shadowsocks-rust/crates/shadowsocks-service/src/local/loadbalancing/ping_balancer.rs:779-800 | One probe result updates one server's statistics and score |
| `PingBalancer.PingBalancerContext.FinishCheck` | obfuscator/src/main/rust/shadowsocks-rust/crates/shadowsocks-service/src/local/loadbalancing/ping_balancer.rs:439-503 | The selection loops store the best indices (also lines 550-608) |
| `SubDomains.MatchesSubdomains` | obfuscator/src/main/rust/shadowsocks-rust/crates/shadowsocks-service/src/acl/sub_domains_tree.rs:35-69 | After any insertions the tree matches a host exactly when, as text, the host is a lower-cased rule or a subdomain of one |
| `SubDomains.MatchesInserted` | obfuscator/src/main/rust/shadowsocks-rust/crates/shadowsocks-service/src/acl/sub_domains_tree.rs:35-69 | The same for label lists: some rule's labels are the host's last labels |
| `SubDomains.InsertAddsSubdomains` | obfuscator/src/main/rust/shadowsocks-rust/crates/shadowsocks-service/src/acl/sub_domains_tree.rs:35-54 | One insertion adds exactly the hosts below the inserted name, despite the early return and the clearing |
| `SubDomains.BuiltCanonical` | obfuscator/src/main/rust/shadowsocks-rust/crates/shadowsocks-service/src/acl/sub_domains_tree.rs:35-54 | Included nodes have no children, every leaf is included, and the tree is empty exactly when nothing was inserted (also lines 71-73) |
| `SubDomains.SameMatchesSameTree` | obfuscator/src/main/rust/shadowsocks-rust/crates/shadowsocks-service/src/acl/sub_domains_tree.rs:35-69 | Canonical trees that match the same hosts are equal |
| `SubDomains.TreeDependsOnMatches` | obfuscator/src/main/rust/shadowsocks-rust/crates/shadowsocks-service/src/acl/sub_domains_tree.rs:35-54 | Two lists of rules build equal trees exactly when each rule of one has a suffix among the rules of the other |
| `SubDomains.InsertionOrderIrrelevant` | obfuscator/src/main/rust/shadowsocks-rust/crates/shadowsocks-service/src/acl/sub_domains_tree.rs:35-54 | Order and repetition of insertions do not matter |
| `DomainNames.SubdomainByLabels` | obfuscator/src/main/rust/shadowsocks-rust/crates/shadowsocks-service/src/acl/sub_domains_tree.rs:38 | Splitting from the right is faithful: being a subdomain as text is having the name's labels last (also lines 58) |
| `DomainNames.LowerLetters` | obfuscator/src/main/rust/shadowsocks-rust/crates/shadowsocks-service/src/acl/sub_domains_tree.rs:40 | The 26 capital letters become small ones, in order, and every other character stays |
| `SubDomains.SubDomainsTree.Insert` | obfuscator/src/main/rust/shadowsocks-rust/crates/shadowsocks-service/src/acl/sub_domains_tree.rs:35-54 | The walking loop leaves the tree of all rules inserted so far |
| `SubDomains.SubDomainsTree.Contains` | obfuscator/src/main/rust/shadowsocks-rust/crates/shadowsocks-service/src/acl/sub_domains_tree.rs:56-69 | The lookup loop answers by textual subdomains of the inserted rules |
| `SubDomains.SubDomainsTree.IsEmpty` | obfuscator/src/main/rust/shadowsocks-rust/crates/shadowsocks-service/src/acl/sub_domains_tree.rs:71-73 | Empty exactly when nothing was inserted |
| `HostPatterns.RecogniseExact` | obfuscator/src/main/rust/shadowsocks-rust/crates/shadowsocks-service/src/acl/mod.rs:192-200 | The recogniser accepts exactly the rules of its six shapes and recovers their parts |
| `HostPatterns.RulesInFull` | obfuscator/src/main/rust/shadowsocks-rust/crates/shadowsocks-service/src/acl/mod.rs:192-200 | Each of the six texts before an escaped name, with or without $, is recognised, and the expression it stands for is found in exactly the hosts where the name occurs at a place that fits that text |
| `HostPatterns.NameExact` | obfuscator/src/main/rust/shadowsocks-rust/crates/shadowsocks-service/src/acl/mod.rs:192-200 | A name in such a rule is letters, digits, underscores, hyphens and dots, with no dot at its start and no two in a row |
| `HostPatterns.SearchFindsName` | obfuscator/src/main/rust/shadowsocks-rust/crates/shadowsocks-service/src/acl/mod.rs:266-273 | Unanchored search for a shape's expression succeeds exactly where its name occurs with a fitting start and end |
| `Acl.RewriteExactIff` | obfuscator/src/main/rust/shadowsocks-rust/crates/shadowsocks-service/src/acl/mod.rs:192-229 | A rewritten rule decides every host as its expression does exactly when it is a whole-name or boundary-group rule that ends with $ and whose name has no final dot |
| `Acl.RewriteExactTexts` | obfuscator/src/main/rust/shadowsocks-rust/crates/shadowsocks-service/src/acl/mod.rs:192-229 | The same by the text of the rule: of the six texts that may stand before an escaped name, the two boundary groups and the bare caret keep the meaning, with $ at the end and no dot at the end of the name, and nothing else does |
| `Acl.AnchoredRewriteWidens` | obfuscator/src/main/rust/shadowsocks-rust/crates/shadowsocks-service/src/acl/mod.rs:192-229 | With $ the rewritten rule matches every host its expression matches, for all six shapes |
| `Acl.RewriteNarrows` | obfuscator/src/main/rust/shadowsocks-rust/crates/shadowsocks-service/src/acl/mod.rs:192-229 | A whole-name or boundary-group rule without a final dot, with or without $, is matched by its expression wherever the rewritten rule matches |
| `CharacterClasses.LoweringKeepsIff` | obfuscator/src/main/rust/shadowsocks-rust/crates/shadowsocks-service/src/acl/mod.rs:224-228 | For expressions made of letters, escaped dots and the classes \d \w \s \D \W \S, lower-casing the text keeps what it says of every lower-case host exactly when no class is written with a capital, nor any letter unless case is ignored |
| `CharacterClasses.CapitalClassDiffers` | obfuscator/src/main/rust/shadowsocks-rust/crates/shadowsocks-service/src/acl/mod.rs:224-228 | The expression \Dads$ matches the host xads; what is stored for it does not |
| `CharacterClasses.LowerPatternText` | obfuscator/src/main/rust/shadowsocks-rust/crates/shadowsocks-service/src/acl/mod.rs:224 | Lower-casing the text turns each class into its lower-case name, whether or not that is the same class |
| `Acl.ParsingRules.CheckHostMatched` | obfuscator/src/main/rust/shadowsocks-rust/crates/shadowsocks-service/src/acl/mod.rs:143-146 | The three-part lookup, final dots removed, decides a host exactly as some stored line does |
| `Acl.StoredLinesKeepMeaning` | obfuscator/src/main/rust/shadowsocks-rust/crates/shadowsocks-service/src/acl/mod.rs:192-252 | Where every rewriting is exact and lower-casing keeps what the expressions, as written, say of a host, some stored line matches it exactly when some line of the file does by itself |
| `Acl.ParsingRules.AddRegexRule` | obfuscator/src/main/rust/shadowsocks-rust/crates/shadowsocks-service/src/acl/mod.rs:192-229 | An expression is stored as a tree rule, a set rule or a lower-cased expression |
| `Acl.ParsingRules.AddTreeRule` | obfuscator/src/main/rust/shadowsocks-rust/crates/shadowsocks-service/src/acl/mod.rs:242-252 | Adds one name to the tree, final dots removed |
| `Acl.ParsingRules.AddSetRule` | obfuscator/src/main/rust/shadowsocks-rust/crates/shadowsocks-service/src/acl/mod.rs:231-240 | Adds one lower-cased name to the set, final dots removed |
| `Acl.TrimDotsExact` | obfuscator/src/main/rust/shadowsocks-rust/crates/shadowsocks-service/src/acl/mod.rs:254-258 | Only the dots at the end of a name are removed, and all of them |
| `Acl.StoreKeepsMeaning` | obfuscator/src/main/rust/shadowsocks-rust/crates/shadowsocks-service/src/acl/mod.rs:192-240 | A stored line decides a host as the line does as written, if its rewriting is exact and lower-casing keeps what the expression says of the host |
| `Acl.IpDecidedByHosts` | obfuscator/src/main/rust/shadowsocks-rust/crates/shadowsocks-service/src/acl/mod.rs:499-504 | With every address as its IPv6 form: in black-list mode an address goes direct, and a client is blocked, exactly if the black list lists it; in white-list mode exactly if the white list does not; what no rule decides is proxied in black-list mode only (also lines 511-516 and 553-564) |
| `Acl.HostsBySets` | obfuscator/src/main/rust/shadowsocks-rust/crates/shadowsocks-service/src/acl/mod.rs:118-140 | A list lists an IPv4 address if that or its carrying IPv6 address is in its sets, and an IPv6 address if that or the IPv4 address it carries is |
| `Acl.MappedDecidedAlike` | obfuscator/src/main/rust/shadowsocks-rust/crates/shadowsocks-service/src/acl/mod.rs:118-140 | An IPv4 address and the IPv6 address that carries it are decided alike, for routing and for clients |
| `LookupRace.RaceIsDetermined` | obfuscator/src/main/rust/shadowsocks-rust/crates/shadowsocks-service/src/local/dns/server.rs:809-837 | In every order of completions the flags never hold together, no future is polled after it gave its value, the last arm is never taken, and the lookup gives the local answer if the decider keeps it and the remote answer otherwise, within two passes |
| `LookupRace.RaceGoesOn` | obfuscator/src/main/rust/shadowsocks-rust/crates/shadowsocks-service/src/local/dns/server.rs:814-836 | Until it returns, some future that has not given its value can still be taken |
| `LookupRace.AclLookup` | obfuscator/src/main/rust/shadowsocks-rust/crates/shadowsocks-service/src/local/dns/server.rs:777-838 | The loop returns the verdict under every choice of the runtime |
| `PtrNames.PtrV4Inverts` | obfuscator/src/main/rust/shadowsocks-rust/crates/shadowsocks-service/src/local/dns/server.rs:525-543 | A reverse IPv4 name decides as its address; with low-order labels missing, as the zero-filled network address |
| `PtrNames.PtrV6Inverts` | obfuscator/src/main/rust/shadowsocks-rust/crates/shadowsocks-service/src/local/dns/server.rs:545-563 | The same for IPv6 names of up to 32 hexadecimal labels in either case |
| `PtrNames.PtrNameSpellsV4` | obfuscator/src/main/rust/shadowsocks-rust/crates/shadowsocks-service/src/local/dns/server.rs:525-543 | The reverse name of section 3.5 of RFC 1035 spells its address, also below further labels |
| `PtrNames.PtrNameSpellsV6` | obfuscator/src/main/rust/shadowsocks-rust/crates/shadowsocks-service/src/local/dns/server.rs:545-563 | The reverse name of section 2.5 of RFC 3596 spells its address, also below further labels |
| `PtrNames.ShouldForwardByPtrName` | obfuscator/src/main/rust/shadowsocks-rust/crates/shadowsocks-service/src/local/dns/server.rs:525-566 | The loops over the label iterator decide as the decoded address, or by default if a label does not parse |
| `PtrNames.OtherNamesByMode` | obfuscator/src/main/rust/shadowsocks-rust/crates/shadowsocks-service/src/local/dns/server.rs:525-566 | A name that does not end in in-addr.arpa or ip6.arpa, or has a label before it that is no octet or no 16-bit group, is forwarded in black-list mode only |
| `PtrNames.OctetsDecide` | obfuscator/src/main/rust/shadowsocks-rust/crates/shadowsocks-service/src/local/dns/server.rs:535-543 | A name in in-addr.arpa whose four labels are octets, however they are written, decides as the address they spell |
| `PtrNames.SegmentsDecide` | obfuscator/src/main/rust/shadowsocks-rust/crates/shadowsocks-service/src/local/dns/server.rs:545-563 | A name in ip6.arpa whose eight groups of four labels are 16-bit numbers decides as the address they spell |
| `LocalContext.CacheHoldsExceptions` | obfuscator/src/main/rust/shadowsocks-rust/crates/shadowsocks-service/src/local/context.rs:145-170 | After any additions and evictions the cache holds exactly the addresses whose latest flag differs from the ACL's answer |
| `LocalContext.BypassFollowsLatest` | obfuscator/src/main/rust/shadowsocks-rust/crates/shadowsocks-service/src/local/context.rs:123-143 | With an ACL, routing follows the latest flag, or the ACL where there is none; without an ACL nothing is bypassed |
| `LocalContext.UnflaggedByLists` | obfuscator/src/main/rust/shadowsocks-rust/crates/shadowsocks-service/src/local/context.rs:123-143 | An address without a flag is bypassed exactly if there is an ACL and its black list, in black-list mode, lists it or its white list, in white-list mode, does not |
| `LocalContext.AnswersRoutedAsLookup` | obfuscator/src/main/rust/shadowsocks-rust/crates/shadowsocks-service/src/local/dns/server.rs:750-769 | After a lookup the addresses it answered with are routed as the lookup was, and all others as before |
| `LocalContext.ServiceContext.AddToReverseLookupCache` | obfuscator/src/main/rust/shadowsocks-rust/crates/shadowsocks-service/src/local/context.rs:145-170 | The method makes the modelled transition |
| `LocalContext.ServiceContext.CheckTargetBypassed` | obfuscator/src/main/rust/shadowsocks-rust/crates/shadowsocks-service/src/local/context.rs:123-143 | The method answers from the history of additions and evictions |
| `LocalContext.ServiceContext.RecordAnswers` | obfuscator/src/main/rust/shadowsocks-rust/crates/shadowsocks-service/src/local/dns/server.rs:750-769 | The loop over the answers of a lookup makes the additions `AnswersRoutedAsLookup` is about |
| `LocalContext.ServiceContext.EvictEntry` | obfuscator/src/main/rust/shadowsocks-rust/crates/shadowsocks-service/src/local/context.rs:55-58 | Expiry or displacement of an entry by the bounded cache is the modelled eviction |
| `Resolver.LookupThenTries` | obfuscator/src/main/rust/shadowsocks-rust/crates/shadowsocks/src/dns_resolver/mod.rs:12-68 | The lookup succeeds exactly when some candidate would, tries none more often than the resolver gave it, and has tried all when it fails |
| `Resolver.TriedStopsAtSuccess` | obfuscator/src/main/rust/shadowsocks-rust/crates/shadowsocks/src/dns_resolver/mod.rs:52-68 | What is tried is everything up to the first success, which is the result, or all of it |
| `Resolver.OrderedIsPermutation` | obfuscator/src/main/rust/shadowsocks-rust/crates/shadowsocks/src/dns_resolver/mod.rs:18-48 | The order in which candidates are tried rearranges what the resolver gave |
| `Resolver.LookupThenExact` | obfuscator/src/main/rust/shadowsocks-rust/crates/shadowsocks/src/dns_resolver/mod.rs:12-68 | That rule told by the resolver's list, the least index of a success in each family and `ipv6_first` alone |
| `Resolver.LookupThen` | obfuscator/src/main/rust/shadowsocks-rust/crates/shadowsocks/src/dns_resolver/mod.rs:12-68 | The macro's loops give the first success of the preferred family in the resolver's order, tried after that family's candidates before it and nothing else; without one, the other family's first success, tried after all of the preferred family; without either, the last error after everything |
| `Resolver.RaceConnects` | obfuscator/src/main/rust/shadowsocks-rust/crates/shadowsocks/src/dns_resolver/mod.rs:180-225 | In every order of attempts ending and the delay elapsing: each family is tried in its order and resumed, not restarted; no candidate is tried more often than the resolver gave it; the result is a connection exactly when some candidate connects, and then the first success of its family; a failure has tried everything; nothing is tried after the return |
| `Resolver.RaceGoesOn` | obfuscator/src/main/rust/shadowsocks-rust/crates/shadowsocks/src/dns_resolver/mod.rs:180-225 | Until the macro returns, an attempt is under way or the delay is running; it returns within one event for each candidate and one for the delay |
| `Resolver.AfterSound` | obfuscator/src/main/rust/shadowsocks-rust/crates/shadowsocks/src/dns_resolver/mod.rs:142-178 | At every point of the race each future has done what trying its list in order does up to there |
| `Resolver.LookupThenConnect` | obfuscator/src/main/rust/shadowsocks-rust/crates/shadowsocks/src/dns_resolver/mod.rs:72-227 | The macro, two future objects driven by the events, begins the modelled attempts and gives the modelled result |
| `Resolver.ConnectFuture.Resume` | obfuscator/src/main/rust/shadowsocks-rust/crates/shadowsocks/src/dns_resolver/mod.rs:142-178 | When an attempt is over, a future is ready with the success, begins the next attempt, or is ready with the last error |
| `Resolver.PreferredWinsWithinDelay` | obfuscator/src/main/rust/shadowsocks-rust/crates/shadowsocks/src/dns_resolver/mod.rs:96-99 | If the preferred family (IPv6 exactly when `ipv6_first`) connects within 300 milliseconds, in every run on time nothing of the other is tried and that connection is the result (also lines 180-225) |
| `Resolver.OtherStartsAfterDelay` | obfuscator/src/main/rust/shadowsocks-rust/crates/shadowsocks/src/dns_resolver/mod.rs:180-225 | If the preferred family's first attempt is still under way, the other family may start exactly from 300 milliseconds on |
| `HttpHeaders.HeaderMap.ClearHopHeaders` | obfuscator/src/main/rust/shadowsocks-rust/crates/shadowsocks-service/src/local/http/http_service.rs:209-251 | The removal loops leave exactly the headers that are none of the nine names and that no readable Connection or Proxy-Connection value other than a bare close lists, by position: between commas or ends with nothing but blanks around the name, in any case |
| `HttpHeaders.ForwardedExact` | obfuscator/src/main/rust/shadowsocks-rust/crates/shadowsocks-service/src/local/http/http_service.rs:226-251 | A header is forwarded, with all its values, exactly if it is none of the nine names and no value of the two headers lists it |
| `HttpHeaders.ListedHeaderGoes` | obfuscator/src/main/rust/shadowsocks-rust/crates/shadowsocks-service/src/local/http/http_service.rs:217-220 | A header whose name stands between commas and any blanks in such a value goes, whatever comes before and after |
| `CommaLists.NamedInExact` | obfuscator/src/main/rust/shadowsocks-rust/crates/shadowsocks-service/src/local/http/http_service.rs:217-220 | Splitting at commas and trimming finds exactly the names that stand between commas or ends with only blanks around them |
| `CommaLists.TrimUnique` | obfuscator/src/main/rust/shadowsocks-rust/crates/shadowsocks-service/src/local/http/http_service.rs:218 | Trimming gives the only text without blanks at its ends that is left when blanks are taken off both ends |
| `HttpHeaders.SetThenCheck` | obfuscator/src/main/rust/shadowsocks-rust/crates/shadowsocks-service/src/local/http/http_service.rs:226-268 | After clearing and setting, the check returns what was set, for every version, header map and kind of check |
| `HttpHeaders.ClearUndoesSet` | obfuscator/src/main/rust/shadowsocks-rust/crates/shadowsocks-service/src/local/http/http_service.rs:226-268 | Clearing again removes what setting added and nothing else |
| `HttpHeaders.Exchange` | obfuscator/src/main/rust/shadowsocks-rust/crates/shadowsocks-service/src/local/http/http_service.rs:147-179 | Over one exchange the client is told to keep its connection exactly when it asked for that and the server keeps its own; the server is asked for what the client asked |
| `CommaLists.SplitInverts` | obfuscator/src/main/rust/shadowsocks-rust/crates/shadowsocks-service/src/local/http/http_service.rs:217-220 | The parts of a value are free of commas and make up the value |
| `HttpHeaders.GetExtraHeaders` | obfuscator/src/main/rust/shadowsocks-rust/crates/shadowsocks-service/src/local/http/http_service.rs:209-224 | The nested loops collect exactly the names the readable values other than a bare close list, by position in the text |
| `HttpHeaders.GetKeepAliveVal` | obfuscator/src/main/rust/shadowsocks-rust/crates/shadowsocks-service/src/local/http/utils.rs:74-92 | The loops return the verdict of the last value that has one |
| `HttpHeaders.HeaderMap.CheckKeepAlive` | obfuscator/src/main/rust/shadowsocks-rust/crates/shadowsocks-service/src/local/http/utils.rs:94-116 | Connection overrides Proxy-Connection, which overrides the version's default |
| `Persistence.AgreesWithStandardIff` | obfuscator/src/main/rust/shadowsocks-rust/crates/shadowsocks-service/src/local/http/utils.rs:74-116 | The check agrees with section 6.3 of RFC 7230 exactly when: if no value lists close (and the version is not 0.9), some value lists keep-alive or the fallback is the version's default; otherwise every value that lists keep-alive is followed by a bare close, and there is a bare close or the fallback is to close |
| `Persistence.KeepAliveValIs` | obfuscator/src/main/rust/shadowsocks-rust/crates/shadowsocks-service/src/local/http/utils.rs:74-92 | The values keep the connection exactly when some keep-alive is not followed by a bare close, and close it exactly when none is and there is a bare close |
| `Persistence.CloseAmongOthersIgnored` | obfuscator/src/main/rust/shadowsocks-rust/crates/shadowsocks-service/src/local/http/utils.rs:74-92 | Connection: close, te asks to close; the check of an HTTP/1.1 message keeps the connection |
| `HttpHeaders.HeaderMap.SetConnKeepAlive` | obfuscator/src/main/rust/shadowsocks-rust/crates/shadowsocks-service/src/local/http/http_service.rs:253-268 | The header is set exactly when the wish differs from the version's default |
| `HttpHeaders.SetExact` | obfuscator/src/main/rust/shadowsocks-rust/crates/shadowsocks-service/src/local/http/http_service.rs:253-268 | Connection: keep-alive is set for HTTP/0.9 and 1.0 when the connection is to be kept, Connection: close for later versions when it is not, and nothing otherwise |
| `HttpHeaders.HeaderMap.RemoveAll` | obfuscator/src/main/rust/shadowsocks-rust/crates/shadowsocks-service/src/local/http/http_service.rs:231-233 | The loop ends with no value of the name left |
| `Socks5.AddressReadsBack` | obfuscator/src/main/rust/shadowsocks-rust/crates/shadowsocks/src/relay/socks5.rs:257-325 | Writing and then reading an address, whatever follows, gives exactly the following bytes and the address without flow information and scope, so the address itself exactly when both are zero; the length is `serialized_len` (also lines 461-509) |
| `Socks5.AddressWritesBack` | obfuscator/src/main/rust/shadowsocks-rust/crates/shadowsocks/src/relay/socks5.rs:257-325 | Any successful read writes back to the bytes consumed (also lines 461-500) |
| `Socks5.CursorAgrees` | obfuscator/src/main/rust/shadowsocks-rust/crates/shadowsocks/src/relay/socks5.rs:217-255 | The cursor reads an address exactly when the stream does, and the same one (also lines 258-325) |
| `Socks5.CursorPanicsIff` | obfuscator/src/main/rust/shadowsocks-rust/crates/shadowsocks/src/relay/socks5.rs:242-252 | The cursor panics exactly on a domain address cut between the end of its name and the end of its port |
| `Socks5.TcpRequestReadsBack` | obfuscator/src/main/rust/shadowsocks-rust/crates/shadowsocks/src/relay/socks5.rs:538-585 | Print then parse for requests, and their length |
| `Socks5.TcpRequestWritesBack` | obfuscator/src/main/rust/shadowsocks-rust/crates/shadowsocks/src/relay/socks5.rs:538-579 | A request that is read writes back to the same bytes with the reserved byte zeroed |
| `Socks5.TcpResponseReadsBack` | obfuscator/src/main/rust/shadowsocks-rust/crates/shadowsocks/src/relay/socks5.rs:612-655 | Print then parse for responses holds exactly for plain addresses and replies that do not hide a named code |
| `Socks5.UdpHeaderReadsBack` | obfuscator/src/main/rust/shadowsocks-rust/crates/shadowsocks/src/relay/socks5.rs:807-840 | Print then parse for UDP headers |
| `Socks5.HandshakeReadsBack` | obfuscator/src/main/rust/shadowsocks-rust/crates/shadowsocks/src/relay/socks5.rs:679-719 | A method list reads back exactly when it has at most 255 entries |
| `Socks5.PasswdReadsBack` | obfuscator/src/main/rust/shadowsocks-rust/crates/shadowsocks/src/relay/socks5.rs:859-943 | A password request reads back exactly when both fields have 1 to 255 bytes |
| `Socks5.ReadAddressFrom` | obfuscator/src/main/rust/shadowsocks-rust/crates/shadowsocks/src/relay/socks5.rs:257-325 | The stream reader gives the modelled result and leaves the rest of the stream |
| `Socks5.ReadAddressCursor` | obfuscator/src/main/rust/shadowsocks-rust/crates/shadowsocks/src/relay/socks5.rs:216-255 | The cursor reader gives the modelled result |
| `Socks5.WriteAddressTo` | obfuscator/src/main/rust/shadowsocks-rust/crates/shadowsocks/src/relay/socks5.rs:461-500 | The writers append the modelled bytes |
| `Socks5.ReadTcpRequestFrom` | obfuscator/src/main/rust/shadowsocks-rust/crates/shadowsocks/src/relay/socks5.rs:538-558 | Reader of requests |
| `Socks5.ReadTcpResponseFrom` | obfuscator/src/main/rust/shadowsocks-rust/crates/shadowsocks/src/relay/socks5.rs:612-632 | Reader of responses |
| `Socks5.ReadUdpHeaderFrom` | obfuscator/src/main/rust/shadowsocks-rust/crates/shadowsocks/src/relay/socks5.rs:807-817 | Reader of UDP headers |
| `Socks5.ReadHandshakeFrom` | obfuscator/src/main/rust/shadowsocks-rust/crates/shadowsocks/src/relay/socks5.rs:679-697 | Reader of method lists |
| `Socks5.ReadPasswdFrom` | obfuscator/src/main/rust/shadowsocks-rust/crates/shadowsocks/src/relay/socks5.rs:879-918 | Reader of password requests |
| `Socks5.WriteTcpRequestTo` | obfuscator/src/main/rust/shadowsocks-rust/crates/shadowsocks/src/relay/socks5.rs:571-579 | Writer of requests |
| `Socks5.WriteTcpResponseTo` | obfuscator/src/main/rust/shadowsocks-rust/crates/shadowsocks/src/relay/socks5.rs:645-649 | Writer of responses |
| `Socks5.WriteUdpHeaderTo` | obfuscator/src/main/rust/shadowsocks-rust/crates/shadowsocks/src/relay/socks5.rs:830-834 | Writer of UDP headers |
| `Socks5.WriteHandshakeTo` | obfuscator/src/main/rust/shadowsocks-rust/crates/shadowsocks/src/relay/socks5.rs:710-714 | Writer of method lists, with the truncated length byte |
| `Socks5.WritePasswdTo` | obfuscator/src/main/rust/shadowsocks-rust/crates/shadowsocks/src/relay/socks5.rs:931-937 | Writer of password requests, with the truncated length bytes |
| `SocksLayout.Ipv4AddressLayout` | obfuscator/src/main/rust/shadowsocks-rust/crates/shadowsocks/src/relay/socks5.rs:461-500 | An IPv4 address is the byte 1, four address bytes and two port bytes, the most significant first (also lines 38-40) |
| `SocksLayout.Ipv6AddressLayout` | obfuscator/src/main/rust/shadowsocks-rust/crates/shadowsocks/src/relay/socks5.rs:461-500 | An IPv6 address is the byte 4, sixteen address bytes and two port bytes |
| `SocksLayout.DomainLayout` | obfuscator/src/main/rust/shadowsocks-rust/crates/shadowsocks/src/relay/socks5.rs:461-500 | A domain address is the byte 3, the length of the name, the name and two port bytes |
| `SocksLayout.AddressErrors` | obfuscator/src/main/rust/shadowsocks-rust/crates/shadowsocks/src/relay/socks5.rs:257-325 | Which bytes give which error when an address is read from a stream |
| `SocksLayout.CursorErrors` | obfuscator/src/main/rust/shadowsocks-rust/crates/shadowsocks/src/relay/socks5.rs:217-255 | Which bytes give which error when an address is read from a cursor |
| `SocksLayout.CommandCodes` | obfuscator/src/main/rust/shadowsocks-rust/crates/shadowsocks/src/relay/socks5.rs:65-84 | Connect, bind and associate are 1, 2 and 3, and no other code is a command (also lines 34-36) |
| `SocksLayout.ReplyCodes` | obfuscator/src/main/rust/shadowsocks-rust/crates/shadowsocks/src/relay/socks5.rs:106-136 | The named replies are 0 to 8 in their order, and other codes stand for themselves (also lines 42-50) |
| `SocksLayout.MessageLayout` | obfuscator/src/main/rust/shadowsocks-rust/crates/shadowsocks/src/relay/socks5.rs:571-579 | The three bytes before the address in requests, responses and UDP headers (also lines 645-649 and 830-834) |
| `SocksLayout.FieldLayout` | obfuscator/src/main/rust/shadowsocks-rust/crates/shadowsocks/src/relay/socks5.rs:710-714 | Version and length bytes of method lists and password requests (also lines 931-937) |
| `SocksLayout.HeaderErrors` | obfuscator/src/main/rust/shadowsocks-rust/crates/shadowsocks/src/relay/socks5.rs:538-558 | Which bytes give which error when a request, a response or a UDP header is read (also lines 612-632 and 807-817) |
| `SocksLayout.FieldErrors` | obfuscator/src/main/rust/shadowsocks-rust/crates/shadowsocks/src/relay/socks5.rs:879-918 | Which bytes give which error when a method list or a password request is read (also lines 679-697) |
| `Utf8Text.ValidUtf8Exact` | obfuscator/src/main/rust/shadowsocks-rust/crates/shadowsocks/src/relay/socks5.rs:313-318 | The bytes accepted as a name are exactly the UTF-8 forms of sequences of Unicode scalar values (also line 250) |
| `Socks4.HandshakeReadsBack` | obfuscator/src/main/rust/shadowsocks-rust/crates/shadowsocks-service/src/local/socks/socks4.rs:204-312 | Print then parse, whatever follows, is the identity exactly when neither user id nor host contains NUL and an IPv4 destination is not 0.0.0.x with x not 0; the length is `serialized_len` |
| `Socks4.ReadIsCarried` | obfuscator/src/main/rust/shadowsocks-rust/crates/shadowsocks-service/src/local/socks/socks4.rs:204-258 | Every request that is read has that form |
| `Socks4.ReadFrom` | obfuscator/src/main/rust/shadowsocks-rust/crates/shadowsocks-service/src/local/socks/socks4.rs:204-258 | The reader gives the modelled result and leaves the rest of the stream |
| `Socks4.WriteTo` | obfuscator/src/main/rust/shadowsocks-rust/crates/shadowsocks-service/src/local/socks/socks4.rs:271-302 | The writer appends the modelled bytes |
| `Socks4.ReadUntilNul` | obfuscator/src/main/rust/shadowsocks-rust/crates/shadowsocks-service/src/local/socks/socks4.rs:226-231 | Reads up to and including the first NUL, or everything if there is none |
| `SocksLayout.Socks4Layout` | obfuscator/src/main/rust/shadowsocks-rust/crates/shadowsocks-service/src/local/socks/socks4.rs:271-302 | A request is 4, the command (1 or 2), two port bytes, four address bytes (0.0.0.255 for a host), the user id, NUL and, for a host, its name and NUL |
| `SocksLayout.Socks4Kinds` | obfuscator/src/main/rust/shadowsocks-rust/crates/shadowsocks-service/src/local/socks/socks4.rs:204-258 | A request that is read has its command and port from bytes 1 to 3, names a host exactly if bytes 4 to 7 are 0.0.0.x with x not 0, and otherwise goes to the address in them |
| `SocksLayout.Socks4Errors` | obfuscator/src/main/rust/shadowsocks-rust/crates/shadowsocks-service/src/local/socks/socks4.rs:204-258 | Which bytes give which error when a request is read |

## Left out

- Nested hash maps of the suffix tree are modelled as values in one field: the walking loop of `Insert` records the entries it passed and puts the changed ones back in one final assignment, where the source writes through a chain of mutable references. Ownership rules out aliasing, so only the order of writes is lost.
- Regular expressions that the recogniser does not accept are decided by a parameter (`search`), and a second one (`written`) says what they mean as they are written; that lower-casing keeps their meaning is a hypothesis (`LoweringKeeps`), decided only for the expressions of `CharacterClasses`. How the library compiles expressions is not modelled; that it reads the six recognised shapes as `Meaning` says is a hypothesis (`ReadsShapes`).
- `load_from_file` (sections, comments, modes) is a line-by-line dispatch to the three `Add` methods modelled here; conversion of names by IDNA belongs to a library.
- Address ranges are finite sets of addresses; merging of networks and parsing of CIDR text belong to libraries.
- `AccessControl::check_target_bypassed` and `check_outbound_blocked` for domain names: short chains over a resolver's answer.
- `should_forward_by_query` and `should_forward_by_response`: their decisions enter the race as parameters; the walk over DNS records depends on a library's record types.
- `push_score` publishes a score after it has released the lock; the model makes both one step, so two pushes to one server from different threads that publish in the other order are not covered where a published score is said to be that of the current statistics.
- Aborted checkers stop at any step (`Abort`); what a plugin process or a notification does is not modelled, so best-server checks may start after one check of all servers, earlier than in the source, which only adds runs.
- The spacing of checks in time: probes may come at any non-decreasing times. The worst histories of `SaturationThreshold` and `RealScoreBoundedIff` include pauses longer than the window; those of `EvenSaturationThreshold` and of the paced part of `AlwaysUsableIff` do not. Paced runs let all probes of a check end together and make the two kinds of checks take turns; that a probe takes as long as its latency says is not modelled.
- Packets wait in the queue of an association until it takes them; an association dropped while it sends a packet counts as dropped before or after that.
- Rounding of floating-point operations in the score.
- `RaceConnects` and `LookupThen` take the outcome of each attempt as fixed beforehand; a resolver error is returned before any of this, and an empty answer panics in the source, which is the one precondition.
- The associations of a server are values in one map (`NatMaps`), where the source keeps handles of tasks; the object form of one association is `UdpAssociation.UdpAssociationContext`.
- Eviction order of the caches and of the map of associations: any entry may be evicted at any time.
- `PasswdAuthResponse`, `HandshakeResponse` and the SOCKS4 response: two or eight fixed bytes.
- Readers that fail leave the stream at an unspecified position.
- Ciphers, TLS, sockets, plugins, configuration loading, the manager protocol, the Android wrapper.
