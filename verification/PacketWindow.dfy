/** Replay window of `packet_window.rs`: a ring of 128 words of 64 bits that stands for the set of
    packet IDs accepted since the last reset. */
module PacketWindow {
  import opened Prelude
  import opened Words

  const BLOCK_BITS: int := 64
  const RING_BLOCKS: int := 128
  const WINDOW_SIZE: int := (RING_BLOCKS - 1) * BLOCK_BITS

  /** Value of a filter: the highest accepted ID and the ring. */
  datatype Window = Window(last: u64, ring: seq<u64>) {
    predicate Valid() {
      |ring| == RING_BLOCKS
    }
  }

  function Block(id: u64): nat {
    id / BLOCK_BITS
  }

  function Slot(block: nat): nat {
    block % RING_BLOCKS
  }

  /** The ring with the slots of blocks `current + 1 ..= current + diff` zeroed. */
  function Cleared(ring: seq<u64>, current: nat, diff: nat): (r: seq<u64>)
    requires |ring| == RING_BLOCKS && diff <= RING_BLOCKS
    ensures |r| == RING_BLOCKS
  {
    seq(RING_BLOCKS, i requires 0 <= i < RING_BLOCKS => if (i - current - 1) % RING_BLOCKS < diff then 0 else ring[i])
  }

  lemma SlotReached(k: nat, current: nat, d: nat)
    requires k < RING_BLOCKS && 0 < d <= RING_BLOCKS
    ensures (k - current - 1) % RING_BLOCKS == d - 1 <==> k == (current + d) % RING_BLOCKS
  {
  }

  lemma ClearedNext(ring: seq<u64>, current: nat, d: nat)
    requires |ring| == RING_BLOCKS && 0 < d <= RING_BLOCKS
    ensures Cleared(ring, current, d) == Cleared(ring, current, d - 1)[(current + d) % RING_BLOCKS := 0]
  {
    forall k | 0 <= k < RING_BLOCKS
      ensures Cleared(ring, current, d)[k] == Cleared(ring, current, d - 1)[(current + d) % RING_BLOCKS := 0][k]
    {
      SlotReached(k, current, d);
    }
  }

  function Marked(word: u64, bit: nat): u64
    requires bit < BLOCK_BITS
  {
    MarkFits(word, bit);
    Or(word, Pow2(bit))
  }

  lemma MarkFits(word: u64, bit: nat)
    requires bit < BLOCK_BITS
    ensures Pow2(bit) <= U64_MAX
    ensures Or(word, Pow2(bit)) <= U64_MAX
  {
    Pow2Is64();
    Pow2Grows(bit, 64);
    OrWidth(word, Pow2(bit), 64);
  }

  /** Sets the bit of `id`; the answer says whether the bit was clear. */
  function CheckAndSet(s: Window, id: u64): (r: (Window, bool))
    requires s.Valid()
    ensures r.0.Valid()
  {
    var slot := Slot(Block(id));
    var word := s.ring[slot];
    var marked := Marked(word, id % BLOCK_BITS);
    (s.(ring := s.ring[slot := marked]), word != marked)
  }

  function Advance(s: Window, id: u64): (r: Window)
    requires s.Valid() && id > s.last
    ensures r.Valid() && r.last == id
  {
    Window(id, Cleared(s.ring, Block(s.last), Min(Block(id) - Block(s.last), RING_BLOCKS)))
  }

  /** The function `validate_packet_id` computes: the next state and the answer. */
  function Validate(s: Window, id: u64, limit: u64): (r: (Window, bool))
    requires s.Valid()
    ensures r.0.Valid()
  {
    if id >= limit then (s, false)
    else if id > s.last then CheckAndSet(Advance(s, id), id)
    else if s.last - id > WINDOW_SIZE then (s, false)
    else CheckAndSet(s, id)
  }

  function Fresh(): (s: Window)
    ensures s.Valid()
  {
    Window(0, seq(RING_BLOCKS, _ => 0))
  }

  function AfterReset(s: Window): (r: Window)
    requires s.Valid()
    ensures r.Valid()
  {
    Window(0, s.ring[0 := 0])
  }

  // ------------------------------------------------------------------ what the ring stands for

  predicate RingBit(ring: seq<u64>, id: u64)
    requires |ring| == RING_BLOCKS
  {
    Bit(ring[Slot(Block(id))], id % BLOCK_BITS)
  }

  /** `id` lies in one of the 128 blocks that end with the block of `last`. */
  predicate Live(last: u64, id: u64) {
    Block(id) <= Block(last) < Block(id) + RING_BLOCKS
  }

  /** The filter stands for the set `seen`: `last` is its maximum, and the ring holds exactly the
      members that lie in live blocks. Slots of other blocks may hold anything. */
  ghost predicate Represents(s: Window, seen: set<u64>) {
    && s.Valid()
    && (forall id <- seen :: id <= s.last)
    && (if seen == {} then s.last == 0 else s.last in seen)
    && forall id: u64 | Live(s.last, id) :: RingBit(s.ring, id) <==> id in seen
  }

  /** The rule the filter promises, in terms of the accepted IDs only. */
  predicate Admissible(last: u64, seen: set<u64>, id: u64, limit: u64) {
    id < limit && (id > last || last - id <= 8128) && id !in seen
  }

  lemma SlotCleared(block: nat, current: nat, diff: nat)
    requires diff <= RING_BLOCKS
    ensures current < block <= current + diff ==> (Slot(block) - current - 1) % RING_BLOCKS < diff
    ensures current + diff - RING_BLOCKS < block <= current ==> (Slot(block) - current - 1) % RING_BLOCKS >= diff
  {
    assert (Slot(block) - current - 1) % RING_BLOCKS == (block - current - 1) % RING_BLOCKS;
  }

  /** Two IDs that are both live share a ring bit only if they are equal. */
  lemma LiveBitsDistinct(last: u64, a: u64, b: u64)
    requires Live(last, a) && Live(last, b)
    requires Slot(Block(a)) == Slot(Block(b)) && a % BLOCK_BITS == b % BLOCK_BITS
    ensures a == b
  {
  }

  lemma MarkedBit(word: u64, bit: nat, k: nat)
    requires bit < BLOCK_BITS && k < BLOCK_BITS
    ensures Bit(Marked(word, bit), k) <==> Bit(word, k) || k == bit
    ensures Marked(word, bit) == word <==> Bit(word, bit)
  {
    BitOfOr(word, Pow2(bit), k);
    BitOfPow2(bit, k);
    OrPow2Same(word, bit);
  }

  /** Moving the window forward forgets nothing that is still live and leaves no stale bits. */
  lemma AdvanceRepresents(s: Window, seen: set<u64>, id: u64)
    requires Represents(s, seen) && id > s.last
    ensures forall x: u64 | Live(id, x) :: RingBit(Advance(s, id).ring, x) <==> x in seen
  {
    var current, diff := Block(s.last), Min(Block(id) - Block(s.last), RING_BLOCKS);
    forall x: u64 | Live(id, x)
      ensures RingBit(Advance(s, id).ring, x) <==> x in seen
    {
      SlotCleared(Block(x), current, diff);
      BitOfZero(x % BLOCK_BITS);
      if Block(x) > current {
        assert x > s.last;
      } else {
        assert Live(s.last, x);
      }
    }
  }

  /** Setting a live bit adds exactly one ID to the represented set. */
  lemma CheckAndSetRepresents(s: Window, seen: set<u64>, id: u64)
    requires s.Valid() && Live(s.last, id)
    requires forall x: u64 | Live(s.last, x) :: RingBit(s.ring, x) <==> x in seen
    ensures CheckAndSet(s, id).1 <==> id !in seen
    ensures forall x: u64 | Live(s.last, x) :: RingBit(CheckAndSet(s, id).0.ring, x) <==> x in seen + {id}
  {
    var slot := Slot(Block(id));
    MarkedBit(s.ring[slot], id % BLOCK_BITS, 0);
    assert RingBit(s.ring, id) <==> id in seen;
    var t := CheckAndSet(s, id).0;
    forall x: u64 | Live(s.last, x)
      ensures RingBit(t.ring, x) <==> x in seen + {id}
    {
      assert RingBit(s.ring, x) <==> x in seen;
      if Slot(Block(x)) == slot {
        MarkedBit(s.ring[slot], id % BLOCK_BITS, x % BLOCK_BITS);
        if x % BLOCK_BITS == id % BLOCK_BITS {
          LiveBitsDistinct(s.last, x, id);
        }
      }
    }
  }

  /** One call answers by the rule and keeps the representation exact. */
  lemma ValidateExact(s: Window, seen: set<u64>, id: u64, limit: u64)
    requires Represents(s, seen)
    ensures var (t, ok) := Validate(s, id, limit);
      && (ok <==> Admissible(s.last, seen, id, limit))
      && (ok ==> Represents(t, seen + {id}) && t.last == Max(s.last, id))
      && (!ok ==> Represents(t, seen) && t.last == s.last)
  {
    if id < limit {
      if id > s.last {
        AdvanceRepresents(s, seen, id);
        CheckAndSetRepresents(Advance(s, id), seen, id);
      } else if s.last - id <= WINDOW_SIZE {
        CheckAndSetRepresents(s, seen, id);
        if id in seen {
          assert seen + {id} == seen;
        }
      }
    }
  }

  lemma FreshRepresents()
    ensures Represents(Fresh(), {})
  {
    forall id: u64 | Live(0, id)
      ensures !RingBit(Fresh().ring, id)
    {
      BitOfZero(id % BLOCK_BITS);
    }
  }

  /** Clearing block 0 alone is a full reset, whatever the other 127 slots hold. */
  lemma ResetRepresents(s: Window)
    requires s.Valid()
    ensures Represents(AfterReset(s), {})
  {
    forall id: u64 | Live(0, id)
      ensures !RingBit(AfterReset(s).ring, id)
    {
      BitOfZero(id % BLOCK_BITS);
    }
  }

  // ------------------------------------------------------------------ whole runs

  datatype Call = ValidateId(id: u64, limit: u64) | ResetAll

  function Step(s: Window, c: Call): (r: (Window, bool))
    requires s.Valid()
    ensures r.0.Valid()
  {
    match c
    case ValidateId(id, limit) => Validate(s, id, limit)
    case ResetAll => (AfterReset(s), false)
  }

  /** State after the first `n` calls, and the answers they gave (false for a reset). */
  function Run(s: Window, calls: seq<Call>): (r: (Window, seq<bool>))
    requires s.Valid()
    ensures r.0.Valid() && |r.1| == |calls|
  {
    if calls == [] then (s, [])
    else
      var (t, answers) := Run(s, calls[..|calls| - 1]);
      var (t', answer) := Step(t, calls[|calls| - 1]);
      (t', answers + [answer])
  }

  /** The IDs a caller saw accepted since the last reset, read off the calls and their answers. */
  function Accepted(calls: seq<Call>, answers: seq<bool>): set<u64>
    requires |calls| == |answers|
  {
    if calls == [] then {}
    else
      var n := |calls| - 1;
      match calls[n]
      case ResetAll => {}
      case ValidateId(id, _) => Accepted(calls[..n], answers[..n]) + if answers[n] then {id} else {}
  }

  ghost predicate IsHighest(last: u64, seen: set<u64>) {
    (forall id <- seen :: id <= last) && (if seen == {} then last == 0 else last in seen)
  }

  lemma {:induction false} RunRepresents(s: Window, calls: seq<Call>)
    requires Represents(s, {})
    ensures var (t, answers) := Run(s, calls); Represents(t, Accepted(calls, answers))
  {
    if calls != [] {
      var n := |calls| - 1;
      RunRepresents(s, calls[..n]);
      var (t, answers) := Run(s, calls[..n]);
      var seen := Accepted(calls[..n], answers);
      assert Run(s, calls).1[..n] == answers;
      match calls[n]
      case ValidateId(id, limit) => ValidateExact(t, seen, id, limit);
      case ResetAll => ResetRepresents(t);
    }
  }

  lemma {:induction false} RunPrefix(s: Window, calls: seq<Call>, n: nat)
    requires s.Valid() && n <= |calls|
    ensures Run(s, calls[..n]).1 == Run(s, calls).1[..n]
  {
    if n < |calls| {
      var m := |calls| - 1;
      RunPrefix(s, calls[..m], n);
      assert calls[..m][..n] == calls[..n];
    } else {
      assert calls[..n] == calls;
    }
  }

  /** Every answer of every run, from the IDs accepted before it alone. */
  lemma RunExact(calls: seq<Call>, n: nat, last: u64)
    requires n < |calls| && calls[n].ValidateId?
    requires IsHighest(last, Accepted(calls[..n], Run(Fresh(), calls).1[..n]))
    ensures Run(Fresh(), calls).1[n] <==>
      Admissible(last, Accepted(calls[..n], Run(Fresh(), calls).1[..n]), calls[n].id, calls[n].limit)
  {
    FreshRepresents();
    RunPrefix(Fresh(), calls, n);
    RunPrefix(Fresh(), calls, n + 1);
    assert calls[..n + 1][..n] == calls[..n];
    RunRepresents(Fresh(), calls[..n]);
    var (t, answers) := Run(Fresh(), calls[..n]);
    ValidateExact(t, Accepted(calls[..n], answers), calls[n].id, calls[n].limit);
  }

  lemma {:induction false} AcceptedKeeps(calls: seq<Call>, answers: seq<bool>, i: nat)
    requires i < |calls| == |answers| && calls[i].ValidateId? && answers[i]
    requires forall k | i < k < |calls| :: calls[k].ValidateId?
    ensures calls[i].id in Accepted(calls, answers)
  {
    var n := |calls| - 1;
    if i < n {
      AcceptedKeeps(calls[..n], answers[..n], i);
    }
  }

  /** No ID is accepted twice between two resets. */
  lemma NoReplay(calls: seq<Call>, i: nat, j: nat)
    requires i < j < |calls| && forall k | i <= k <= j :: calls[k].ValidateId?
    requires calls[i].id == calls[j].id && Run(Fresh(), calls).1[i]
    ensures !Run(Fresh(), calls).1[j]
  {
    var answers := Run(Fresh(), calls).1;
    FreshRepresents();
    RunPrefix(Fresh(), calls, j);
    RunRepresents(Fresh(), calls[..j]);
    AcceptedKeeps(calls[..j], answers[..j], i);
    RunExact(calls, j, Run(Fresh(), calls[..j]).0.last);
  }

  /** Two filters that represent the same set answer every later run alike. */
  lemma {:induction false} SameSetSameAnswers(s: Window, t: Window, calls: seq<Call>)
    requires Represents(s, {}) && Represents(t, {})
    ensures Run(s, calls).1 == Run(t, calls).1
  {
    if calls != [] {
      var n := |calls| - 1;
      SameSetSameAnswers(s, t, calls[..n]);
      RunRepresents(s, calls[..n]);
      RunRepresents(t, calls[..n]);
      var seen := Accepted(calls[..n], Run(s, calls[..n]).1);
      match calls[n]
      case ResetAll =>
      case ValidateId(id, limit) =>
        ValidateExact(Run(s, calls[..n]).0, seen, id, limit);
        ValidateExact(Run(t, calls[..n]).0, seen, id, limit);
    }
  }

  /** After a reset, from any state, every later run of calls is answered as by a new filter. */
  lemma ResetAnswersAsFresh(s: Window, calls: seq<Call>)
    requires s.Valid()
    ensures Run(AfterReset(s), calls).1 == Run(Fresh(), calls).1
  {
    ResetRepresents(s);
    FreshRepresents();
    SameSetSameAnswers(AfterReset(s), Fresh(), calls);
  }

  // ------------------------------------------------------------------ the filter object

  class PacketWindowFilter {
    var lastPacketId: u64
    const packetRing: array<u64>
    /** The IDs accepted since the last reset. */
    ghost var seen: set<u64>

    ghost predicate Valid()
      reads this, packetRing
    {
      packetRing.Length == RING_BLOCKS && Represents(State(), seen)
    }

    function State(): Window
      reads this, packetRing
    {
      Window(lastPacketId, packetRing[..])
    }

    constructor ()
      ensures Valid() && seen == {} && State() == Fresh() && fresh(packetRing)
    {
      lastPacketId := 0;
      packetRing := new u64[RING_BLOCKS](_ => 0);
      seen := {};
      new;
      assert packetRing[..] == Fresh().ring;
      FreshRepresents();
    }

    method Reset()
      requires Valid()
      modifies this, packetRing
      ensures Valid() && seen == {}
      ensures State() == AfterReset(old(State()))
    {
      ResetRepresents(State());
      lastPacketId := 0;
      packetRing[0] := 0;
      seen := {};
      assert packetRing[..] == AfterReset(old(State())).ring;
    }

    method ValidatePacketId(packetId: u64, limit: u64) returns (ok: bool)
      requires Valid()
      modifies this, packetRing
      ensures Valid()
      ensures (State(), ok) == Validate(old(State()), packetId, limit)
      ensures ok <==> Admissible(old(lastPacketId), old(seen), packetId, limit)
      ensures seen == old(seen) + if ok then {packetId} else {}
    {
      hide Represents, Admissible, Cleared, Marked;
      ValidateExact(State(), seen, packetId, limit);
      ghost var start := State();
      if packetId >= limit {
        return false;
      }
      var indexBlock: u64 := packetId / BLOCK_BITS;
      if packetId > lastPacketId {
        // The blocks passed on the way are reused, so what they hold is stale.
        var current: u64 := lastPacketId / BLOCK_BITS;
        var diff: u64 := indexBlock - current;
        if diff > RING_BLOCKS {
          // One round of the ring clears every slot.
          diff := RING_BLOCKS;
        }
        ClearBlocks(current, diff);
        lastPacketId := packetId;
        assert State() == Advance(start, packetId);
      } else if lastPacketId - packetId > WINDOW_SIZE {
        return false;
      }
      ghost var moved := State();
      assert CheckAndSet(moved, packetId) == Validate(start, packetId, limit);
      indexBlock := indexBlock % RING_BLOCKS;
      var indexBit: u64 := packetId % BLOCK_BITS;
      var before: u64 := packetRing[indexBlock];
      var marked: u64 := Marked(before, indexBit);
      packetRing[indexBlock] := marked;
      ok := before != marked;
      assert (State(), ok) == CheckAndSet(moved, packetId);
      if ok {
        seen := seen + {packetId};
      }
    }

    method ClearBlocks(current: u64, diff: u64)
      requires packetRing.Length == RING_BLOCKS
      requires diff <= RING_BLOCKS && current + diff <= U64_MAX
      modifies packetRing
      ensures packetRing[..] == Cleared(old(packetRing[..]), current, diff)
    {
      for d := 1 to diff + 1
        invariant packetRing[..] == Cleared(old(packetRing[..]), current, d - 1)
      {
        var i: u64 := current + d;
        packetRing[i % RING_BLOCKS] := 0;
        ClearedNext(old(packetRing[..]), current, d);
      }
    }
  }
}
