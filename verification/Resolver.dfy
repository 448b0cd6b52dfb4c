/** Trying the addresses of a resolved host, `dns_resolver/mod.rs`: one after another, and the two families in
    a race. */
module Resolver {
  import opened Prelude

  datatype Family = V4Family | V6Family

  /** An address a resolver gave, with what trying it will yield and how long that takes. */
  datatype Candidate = Candidate(family: Family, address: nat, outcome: Result<nat, nat>, duration: nat)

  /** An address and the connection made to it, or the error. */
  type Attempt = Result<(nat, nat), nat>

  /** The family that is tried second. */
  function Other(f: Family): Family {
    if f == V4Family then V6Family else V4Family
  }

  function OfFamily(all: seq<Candidate>, f: Family): seq<Candidate> {
    if all == [] then []
    else
      var last := all[|all| - 1];
      OfFamily(all[..|all| - 1], f) + if last.family == f then [last] else []
  }

  lemma {:induction false} FamilyMembers(all: seq<Candidate>, f: Family)
    ensures forall c :: c in OfFamily(all, f) <==> c in all && c.family == f
  {
    if all != [] {
      FamilyMembers(all[..|all| - 1], f);
    }
  }

  /** The members keep the resolver's order: each comes after as many as there are before it. */
  lemma {:induction false} OfFamilyAt(all: seq<Candidate>, f: Family, i: nat)
    requires i < |all| && all[i].family == f
    ensures var k := |OfFamily(all[..i], f)|;
      k < |OfFamily(all, f)| && OfFamily(all, f)[k] == all[i]
  {
    var n := |all| - 1;
    if i < n {
      OfFamilyAt(all[..n], f, i);
      assert all[..n][..i] == all[..i];
    }
  }

  lemma SomeFamily(all: seq<Candidate>, f: Family)
    requires all != []
    ensures OfFamily(all, f) != [] || OfFamily(all, Other(f)) != []
  {
    FamilyMembers(all, f);
    FamilyMembers(all, Other(f));
    hide OfFamily;
    assert all[0] in OfFamily(all, f) || all[0] in OfFamily(all, Other(f));
  }

  // ------------------------------------------------------------------ one family, in order

  /** Position of the first candidate that succeeds. */
  function FirstSuccess(list: seq<Candidate>): (k: Option<nat>)
    ensures k.Some? ==> k.value < |list| && list[k.value].outcome.Ok?
    ensures k.Some? ==> forall i | 0 <= i < k.value :: list[i].outcome.Err?
    ensures k.None? ==> forall i | 0 <= i < |list| :: list[i].outcome.Err?
  {
    if list == [] then None
    else
      var n := |list| - 1;
      var k := FirstSuccess(list[..n]);
      if k.Some? then k else if list[n].outcome.Ok? then Some(n) else None
  }

  /** The result of trying a list: its first success, or the error of its last candidate. */
  function Outcome(list: seq<Candidate>): (r: Attempt)
    requires list != []
    ensures r.Ok? <==> exists c <- list :: c.outcome.Ok?
  {
    match FirstSuccess(list)
    case Some(k) => Ok((list[k].address, list[k].outcome.value))
    case None => Err(list[|list| - 1].outcome.error)
  }

  /** The candidates that are tried: up to the first success, or all. */
  function Tried(list: seq<Candidate>): seq<Candidate> {
    match FirstSuccess(list)
    case Some(k) => list[..k + 1]
    case None => list
  }

  method TryInOrder(list: seq<Candidate>) returns (result: Attempt, tried: seq<Candidate>)
    requires list != []
    ensures result == Outcome(list) && tried == Tried(list)
  {
    tried := [];
    result := Err(0);
    for i := 0 to |list|
      invariant tried == list[..i] && forall k | 0 <= k < i :: list[k].outcome.Err?
      invariant i > 0 ==> result == Err(list[i - 1].outcome.error)
    {
      tried := tried + [list[i]];
      match list[i].outcome {
        case Ok(connection) =>
          result := Ok((list[i].address, connection));
          FirstSuccessUnique(list, i);
          return;
        case Err(error) =>
          result := Err(error);
      }
    }
    assert list[..|list|] == list;
  }

  lemma FirstSuccessUnique(list: seq<Candidate>, k: nat)
    requires k < |list| && list[k].outcome.Ok? && forall i | 0 <= i < k :: list[i].outcome.Err?
    ensures FirstSuccess(list) == Some(k)
  {
  }

  // ------------------------------------------------------------------ both families, one after the other

  /** The order of `lookup_then`: the preferred family in the resolver's order, then the other one. */
  function Ordered(all: seq<Candidate>, preferred: Family): seq<Candidate> {
    OfFamily(all, preferred) + OfFamily(all, Other(preferred))
  }

  /** Trying one list and then another is trying their concatenation. */
  lemma ChainedLists(a: seq<Candidate>, b: seq<Candidate>)
    requires a != [] && b != []
    ensures Outcome(a + b) == if Outcome(a).Ok? then Outcome(a) else Outcome(b)
    ensures Tried(a + b) == if Outcome(a).Ok? then Tried(a) else Tried(a) + Tried(b)
  {
    var c := a + b;
    if FirstSuccess(a).Some? {
      FirstSuccessUnique(c, FirstSuccess(a).value);
      assert c[..FirstSuccess(a).value + 1] == a[..FirstSuccess(a).value + 1];
    } else if FirstSuccess(b).Some? {
      FirstSuccessUnique(c, |a| + FirstSuccess(b).value);
      assert c[..|a| + FirstSuccess(b).value + 1] == a + b[..FirstSuccess(b).value + 1];
    } else {
      assert FirstSuccess(c).None?;
    }
  }

  /** `all[k]` is the resolver's first candidate of the family that succeeds. */
  predicate FirstOk(all: seq<Candidate>, f: Family, k: nat) {
    && k < |all| && all[k].family == f && all[k].outcome.Ok?
    && forall i | 0 <= i < k && all[i].family == f :: all[i].outcome.Err?
  }

  predicate NoneOk(all: seq<Candidate>, f: Family) {
    forall c <- all :: c.family == f ==> c.outcome.Err?
  }

  /** The preferred family's first success wins, tried after the family's candidates before it and nothing else. If
      there is none the other family's first success wins, tried after all of the preferred family. If there is none
      either, everything was tried, the preferred family first, and the last error is returned. */
  ghost predicate LookupRule(all: seq<Candidate>, mine: Family, other: Family, result: Attempt, tried: seq<Candidate>) {
    && (forall k: nat | FirstOk(all, mine, k) ::
      result == Ok((all[k].address, all[k].outcome.value)) && tried == OfFamily(all[..k + 1], mine))
    && (forall k: nat | NoneOk(all, mine) && FirstOk(all, other, k) ::
      && result == Ok((all[k].address, all[k].outcome.value))
      && tried == OfFamily(all, mine) + OfFamily(all[..k + 1], other))
    && (NoneOk(all, mine) && NoneOk(all, other) ==>
      && tried == OfFamily(all, mine) + OfFamily(all, other)
      && tried != [] && tried[|tried| - 1].outcome.Err?
      && result == Err(tried[|tried| - 1].outcome.error))
  }

  lemma {:induction false} FamilyPrefix(all: seq<Candidate>, f: Family, k: nat)
    requires k <= |all|
    ensures OfFamily(all[..k], f) <= OfFamily(all, f)
  {
    if k < |all| {
      var n := |all| - 1;
      FamilyPrefix(all[..n], f, k);
      assert all[..n][..k] == all[..k];
    } else {
      assert all[..k] == all;
    }
  }

  /** Trying a family's list ends at its first success in the resolver's order. */
  lemma FamilyFirstOk(all: seq<Candidate>, f: Family, k: nat)
    requires FirstOk(all, f, k)
    ensures OfFamily(all, f) != []
    ensures Outcome(OfFamily(all, f)) == Ok((all[k].address, all[k].outcome.value))
    ensures Tried(OfFamily(all, f)) == OfFamily(all[..k + 1], f)
  {
    var list, before := OfFamily(all, f), OfFamily(all[..k], f);
    var i := |before|;
    OfFamilyAt(all, f, k);
    FamilyPrefix(all, f, k);
    FamilyPrefix(all, f, k + 1);
    FamilyMembers(all[..k], f);
    assert all[..k + 1][..k] == all[..k];
    forall j | 0 <= j < i
      ensures list[j].outcome.Err?
    {
      assert list[j] == before[j];
    }
    FirstSuccessUnique(list, i);
    assert list[..i + 1] == OfFamily(all[..k + 1], f);
  }

  lemma FamilyFails(all: seq<Candidate>, f: Family)
    requires NoneOk(all, f)
    ensures var list := OfFamily(all, f);
      && (forall c <- list :: c.outcome.Err?) && Tried(list) == list
      && (list != [] ==> Outcome(list) == Err(list[|list| - 1].outcome.error))
  {
    FamilyMembers(all, f);
    hide OfFamily;
  }

  lemma ConcatTries(a: seq<Candidate>, b: seq<Candidate>)
    requires a + b != []
    ensures a != [] && Outcome(a).Ok? ==> Outcome(a + b) == Outcome(a) && Tried(a + b) == Tried(a)
    ensures b != [] && (a == [] || Outcome(a).Err?) && Tried(a) == a ==>
      Outcome(a + b) == Outcome(b) && Tried(a + b) == a + Tried(b)
    ensures b == [] ==> a + b == a
  {
    hide Outcome, Tried;
    if a == [] {
      assert a + b == b;
      assert a + Tried(b) == Tried(b);
    } else if b == [] {
      assert a + b == a;
    } else {
      ChainedLists(a, b);
    }
  }

  lemma MineFirst(all: seq<Candidate>, mine: Family, other: Family, k: nat)
    requires FirstOk(all, mine, k)
    ensures var order := OfFamily(all, mine) + OfFamily(all, other);
      && order != []
      && Outcome(order) == Ok((all[k].address, all[k].outcome.value))
      && Tried(order) == OfFamily(all[..k + 1], mine)
  {
    FamilyFirstOk(all, mine, k);
    hide OfFamily, Outcome, Tried;
    ConcatTries(OfFamily(all, mine), OfFamily(all, other));
  }

  lemma OtherNext(all: seq<Candidate>, mine: Family, other: Family, k: nat)
    requires NoneOk(all, mine) && FirstOk(all, other, k)
    ensures var order := OfFamily(all, mine) + OfFamily(all, other);
      && order != []
      && Outcome(order) == Ok((all[k].address, all[k].outcome.value))
      && Tried(order) == OfFamily(all, mine) + OfFamily(all[..k + 1], other)
  {
    FamilyFails(all, mine);
    FamilyFirstOk(all, other, k);
    hide OfFamily, Outcome, Tried;
    ConcatTries(OfFamily(all, mine), OfFamily(all, other));
  }

  lemma AllFail(all: seq<Candidate>, mine: Family, other: Family)
    requires NoneOk(all, mine) && NoneOk(all, other)
    requires OfFamily(all, mine) + OfFamily(all, other) != []
    ensures var order := OfFamily(all, mine) + OfFamily(all, other);
      Tried(order) == order && order[|order| - 1].outcome.Err?
        && Outcome(order) == Err(order[|order| - 1].outcome.error)
  {
    FamilyFails(all, mine);
    FamilyFails(all, other);
    hide OfFamily, Outcome, Tried;
    ConcatTries(OfFamily(all, mine), OfFamily(all, other));
  }

  /** The order of trials, its result and what is tried, told by the resolver's list alone. */
  lemma LookupThenExact(all: seq<Candidate>, ipv6First: bool)
    requires all != []
    ensures var mine, other := if ipv6First then V6Family else V4Family, if ipv6First then V4Family else V6Family;
      var order := Ordered(all, mine);
      order != [] && LookupRule(all, mine, other, Outcome(order), Tried(order))
  {
    hide OfFamily, Outcome, Tried, FirstOk, NoneOk;
    var mine, other := if ipv6First then V6Family else V4Family, if ipv6First then V4Family else V6Family;
    SomeFamily(all, mine);
    forall k: nat | FirstOk(all, mine, k) {
      MineFirst(all, mine, other, k);
    }
    forall k: nat | NoneOk(all, mine) && FirstOk(all, other, k) {
      OtherNext(all, mine, other, k);
    }
    if NoneOk(all, mine) && NoneOk(all, other) {
      AllFail(all, mine, other);
    }
  }

  method LookupThen(all: seq<Candidate>, ipv6First: bool) returns (result: Attempt, tried: seq<Candidate>)
    requires all != []
    ensures var order := Ordered(all, if ipv6First then V6Family else V4Family);
      order != [] && result == Outcome(order) && tried == Tried(order)
    ensures LookupRule(all, if ipv6First then V6Family else V4Family, if ipv6First then V4Family else V6Family,
                       result, tried)
  {
    hide OfFamily, Outcome, Tried, LookupRule;
    var v4Addrs, v6Addrs := Split(all);
    SomeFamily(all, V4Family);
    if v4Addrs == [] {
      assert v6Addrs + [] == v6Addrs == [] + v6Addrs;
      result, tried := TryInOrder(v6Addrs);
    } else if v6Addrs == [] {
      assert v4Addrs + [] == v4Addrs == [] + v4Addrs;
      result, tried := TryInOrder(v4Addrs);
    } else {
      var first, second := if ipv6First then v6Addrs else v4Addrs, if ipv6First then v4Addrs else v6Addrs;
      ChainedLists(first, second);
      result, tried := TryInOrder(first);
      if result.Err? {
        var more: seq<Candidate>;
        result, more := TryInOrder(second);
        tried := tried + more;
      }
    }
    LookupThenExact(all, ipv6First);
  }

  method Split(all: seq<Candidate>) returns (v4Addrs: seq<Candidate>, v6Addrs: seq<Candidate>)
    ensures v4Addrs == OfFamily(all, V4Family) && v6Addrs == OfFamily(all, V6Family)
  {
    v4Addrs, v6Addrs := [], [];
    for i := 0 to |all|
      invariant v4Addrs == OfFamily(all[..i], V4Family) && v6Addrs == OfFamily(all[..i], V6Family)
    {
      assert all[..i + 1][..i] == all[..i];
      match all[i].family {
        case V4Family => v4Addrs := v4Addrs + [all[i]];
        case V6Family => v6Addrs := v6Addrs + [all[i]];
      }
    }
    assert all[..|all|] == all;
  }

  /** The order is a rearrangement of what the resolver gave: no candidate is lost or repeated. */
  lemma {:induction false} OrderedIsPermutation(all: seq<Candidate>, preferred: Family)
    ensures multiset(Ordered(all, preferred)) == multiset(all)
  {
    if all != [] {
      var n := |all| - 1;
      OrderedIsPermutation(all[..n], preferred);
      assert all == all[..n] + [all[n]];
      FamilySnoc(all, preferred);
      FamilySnoc(all, Other(preferred));
    }
  }

  lemma FamilySnoc(all: seq<Candidate>, f: Family)
    requires all != []
    ensures var n := |all| - 1;
      multiset(OfFamily(all, f)) ==
      multiset(OfFamily(all[..n], f)) + if all[n].family == f then multiset{all[n]} else multiset{}
  {
  }

  /** What is tried of a list: everything up to its first success, which is the result, or all of it. */
  lemma TriedStopsAtSuccess(order: seq<Candidate>)
    requires order != []
    ensures var tried := Tried(order);
      && tried != [] && tried <= order
      && (forall i | 0 <= i < |tried| - 1 :: tried[i].outcome.Err?)
      && (if Outcome(order).Ok?
          then tried[|tried| - 1].outcome.Ok?
            && Outcome(order) == Ok((tried[|tried| - 1].address, tried[|tried| - 1].outcome.value))
          else tried == order)
  {
  }

  /** The lookup succeeds exactly when some candidate would. It stops at the first success in its order, and
      tries no candidate more often than the resolver gave it; when it fails it has tried them all. */
  lemma LookupThenTries(all: seq<Candidate>, preferred: Family)
    requires all != []
    ensures var order := Ordered(all, preferred);
      && order != []
      && (Outcome(order).Ok? <==> exists c <- all :: c.outcome.Ok?)
      && multiset(Tried(order)) <= multiset(all)
      && (Outcome(order).Err? ==> multiset(Tried(order)) == multiset(all))
  {
    var order := Ordered(all, preferred);
    OrderedIsPermutation(all, preferred);
    hide OfFamily, Ordered;
    assert all[0] in multiset(all);
    assert order != [];
    SameMembers(order, all);
    TriedStopsAtSuccess(order);
    hide Tried;
    var tried := Tried(order);
    assert order == tried + order[|tried|..];
  }

  lemma SameMembers(a: seq<Candidate>, b: seq<Candidate>)
    requires multiset(a) == multiset(b)
    ensures forall c :: c in a <==> c in b
  {
    forall c
      ensures c in a <==> c in b
    {
      assert c in a <==> c in multiset(a);
      assert c in b <==> c in multiset(b);
    }
  }

  // ------------------------------------------------------------------ both families in a race

  /** The future of one family: asleep, with attempt `next` under way, or ready after some attempts. */
  datatype Runner = Asleep | Trying(next: nat) | Ready(attempts: nat, result: Attempt) {
    predicate Within(list: seq<Candidate>) {
      Trying? ==> next < |list|
    }
  }

  /** Both futures are polled, or one of them, or the macro has returned. */
  datatype Phase = Selecting | Awaiting(family: Family) | Returned(result: Attempt)

  /** State of the race; `started` lists the attempts begun so far, in their order. */
  datatype Race = Race(v4: Runner, v6: Runner, phase: Phase, started: seq<Candidate>) {
    function Of(f: Family): Runner {
      match f
      case V4Family => v4
      case V6Family => v6
    }

    function With(f: Family, r: Runner): Race {
      match f
      case V4Family => this.(v4 := r)
      case V6Family => this.(v6 := r)
    }

    predicate Polled(f: Family) {
      phase == Selecting || phase == Awaiting(f)
    }

    /** Indices stay inside the lists. */
    predicate Fits(all: seq<Candidate>) {
      v4.Within(OfFamily(all, V4Family)) && v6.Within(OfFamily(all, V6Family))
    }
  }

  /** The delay of a family is over, or its attempt under way is. */
  datatype Event = DelayOver(family: Family) | AttemptOver(family: Family)

  predicate CanHappen(all: seq<Candidate>, s: Race, e: Event) {
    match e
    case DelayOver(f) => s.Polled(f) && s.Of(f).Asleep? && OfFamily(all, f) != []
    case AttemptOver(f) => s.Polled(f) && s.Of(f).Trying?
  }

  function Preferred(ipv6First: bool): Family {
    if ipv6First then V6Family else V4Family
  }

  /** Begins attempt `k` of a family. */
  function Try(all: seq<Candidate>, s: Race, f: Family, k: nat): (t: Race)
    requires k < |OfFamily(all, f)|
  {
    s.With(f, Trying(k)).(started := s.started + [OfFamily(all, f)[k]])
  }

  /** With one family its future is awaited; with two, the preferred one starts and the other one sleeps. */
  function Begin(all: seq<Candidate>, ipv6First: bool): (s: Race)
    requires all != []
    ensures s.Fits(all)
  {
    var mine := Preferred(ipv6First);
    SomeFamily(all, mine);
    var idle := Race(Asleep, Asleep, Selecting, []);
    if OfFamily(all, Other(mine)) == [] then Try(all, idle.(phase := Awaiting(mine)), mine, 0)
    else if OfFamily(all, mine) == [] then Try(all, idle.(phase := Awaiting(Other(mine))), Other(mine), 0)
    else Try(all, idle, mine, 0)
  }

  /** The future of a family is ready: a connection is returned, a first failure leaves the other future to be
      awaited as it stands, a second one is returned. */
  function Finished(s: Race, f: Family, attempts: nat, result: Attempt): Race {
    var phase := if result.Err? && s.phase == Selecting then Awaiting(Other(f)) else Returned(result);
    s.With(f, Ready(attempts, result)).(phase := phase)
  }

  function Happen(all: seq<Candidate>, s: Race, e: Event): (t: Race)
    requires s.Fits(all) && CanHappen(all, s, e)
    ensures t.Fits(all)
  {
    match e
    case DelayOver(f) => Try(all, s, f, 0)
    case AttemptOver(f) =>
      var list, k := OfFamily(all, f), s.Of(f).next;
      match list[k].outcome
      case Ok(connection) => Finished(s, f, k + 1, Ok((list[k].address, connection)))
      case Err(error) => if k + 1 < |list| then Try(all, s, f, k + 1) else Finished(s, f, k + 1, Err(error))
  }

  /** The state after some events, if they can happen in that order. */
  function After(all: seq<Candidate>, ipv6First: bool, events: seq<Event>): (s: Option<Race>)
    requires all != []
    ensures s.Some? ==> s.value.Fits(all)
  {
    if events == [] then Some(Begin(all, ipv6First))
    else
      match After(all, ipv6First, events[..|events| - 1])
      case Some(s) =>
        if CanHappen(all, s, events[|events| - 1]) then Some(Happen(all, s, events[|events| - 1])) else None
      case None => None
  }

  function Attempts(r: Runner): nat {
    match r
    case Asleep => 0
    case Trying(k) => k + 1
    case Ready(n, _) => n
  }

  /** What a future has done is what trying its list in order does up to there. */
  predicate RunnerSound(list: seq<Candidate>, r: Runner) {
    match r
    case Asleep => true
    case Trying(k) => k < |list| && forall i | 0 <= i < k :: list[i].outcome.Err?
    case Ready(n, result) => list != [] && n <= |list| && list[..n] == Tried(list) && result == Outcome(list)
  }

  predicate FamilySound(all: seq<Candidate>, s: Race, f: Family) {
    && RunnerSound(OfFamily(all, f), s.Of(f))
    && OfFamily(s.started, f) == OfFamily(all, f)[..Attempts(s.Of(f))]
  }

  /** The future of this family takes no further part: it failed, or has nothing to try. */
  predicate Spent(all: seq<Candidate>, s: Race, f: Family) {
    OfFamily(all, f) == [] || (s.Of(f).Ready? && s.Of(f).result.Err?)
  }

  predicate ReturnedFrom(all: seq<Candidate>, s: Race, f: Family, r: Attempt) {
    s.Of(f).Ready? && s.Of(f).result == r && (r.Err? ==> Spent(all, s, Other(f)))
  }

  predicate PhaseSound(all: seq<Candidate>, s: Race) {
    match s.phase
    case Selecting =>
      !s.v4.Ready? && !s.v6.Ready? && OfFamily(all, V4Family) != [] && OfFamily(all, V6Family) != []
    case Awaiting(f) => !s.Of(f).Ready? && OfFamily(all, f) != [] && Spent(all, s, Other(f))
    case Returned(r) => ReturnedFrom(all, s, V4Family, r) || ReturnedFrom(all, s, V6Family, r)
  }

  predicate RaceSound(all: seq<Candidate>, s: Race) {
    FamilySound(all, s, V4Family) && FamilySound(all, s, V6Family) && PhaseSound(all, s)
  }

  lemma StartedSnoc(started: seq<Candidate>, c: Candidate, f: Family)
    ensures OfFamily(started + [c], f) == OfFamily(started, f) + if c.family == f then [c] else []
  {
    assert (started + [c])[..|started|] == started;
  }

  lemma MemberOfFamily(all: seq<Candidate>, f: Family, k: nat)
    requires k < |OfFamily(all, f)|
    ensures OfFamily(all, f)[k].family == f
  {
    FamilyMembers(all, f);
    assert OfFamily(all, f)[k] in OfFamily(all, f);
  }

  lemma TrySound(all: seq<Candidate>, s: Race, f: Family, k: nat, g: Family)
    requires FamilySound(all, s, g) && k < |OfFamily(all, f)| && Attempts(s.Of(f)) == k
    requires forall i | 0 <= i < k :: OfFamily(all, f)[i].outcome.Err?
    ensures FamilySound(all, Try(all, s, f, k), g)
  {
    hide OfFamily, Outcome, Tried;
    var list := OfFamily(all, f);
    MemberOfFamily(all, f, k);
    StartedSnoc(s.started, list[k], g);
    if g == f {
      assert list[..k] + [list[k]] == list[..k + 1];
    } else {
      assert OfFamily(s.started, g) + [] == OfFamily(s.started, g);
    }
  }

  lemma IdleSound(all: seq<Candidate>, phase: Phase, f: Family)
    ensures FamilySound(all, Race(Asleep, Asleep, phase, []), f)
  {
  }

  lemma BeginTries(all: seq<Candidate>, ipv6First: bool) returns (first: Family)
    requires all != []
    ensures OfFamily(all, first) != []
    ensures var s := Begin(all, ipv6First);
      && s == Try(all, Race(Asleep, Asleep, s.phase, []), first, 0)
      && s.phase == if OfFamily(all, Other(first)) == [] then Awaiting(first) else Selecting
  {
    var mine := Preferred(ipv6First);
    SomeFamily(all, mine);
    first := if OfFamily(all, mine) != [] then mine else Other(mine);
  }

  lemma BeginSound(all: seq<Candidate>, ipv6First: bool)
    requires all != []
    ensures RaceSound(all, Begin(all, ipv6First))
  {
    var first := BeginTries(all, ipv6First);
    var s := Begin(all, ipv6First);
    var idle := Race(Asleep, Asleep, s.phase, []);
    assert s.Of(first) == Trying(0) && s.Of(Other(first)) == Asleep && Attempts(idle.Of(first)) == 0;
    hide Begin, OfFamily, FamilySound, RunnerSound;
    assert PhaseSound(all, s);
    hide Try, PhaseSound;
    forall f: Family
      ensures FamilySound(all, s, f)
    {
      hide Attempts;
      IdleSound(all, s.phase, f);
      TrySound(all, idle, first, 0, f);
    }
  }

  /** A future that gets ready has tried its list as far as it goes. */
  lemma ReadySound(list: seq<Candidate>, k: nat)
    requires k < |list| && (forall i | 0 <= i < k :: list[i].outcome.Err?) && (list[k].outcome.Ok? || k + 1 == |list|)
    ensures list[..k + 1] == Tried(list)
    ensures Outcome(list) == match list[k].outcome
      case Ok(connection) => Ok((list[k].address, connection))
      case Err(error) => Err(error)
  {
    if list[k].outcome.Ok? {
      FirstSuccessUnique(list, k);
    } else {
      assert FirstSuccess(list).None?;
    }
  }

  lemma FinishedSound(all: seq<Candidate>, s: Race, f: Family, result: Attempt)
    requires RaceSound(all, s) && s.Polled(f) && s.Of(f).Trying?
    requires var n := s.Of(f).next + 1;
      RunnerSound(OfFamily(all, f), Ready(n, result))
    ensures RaceSound(all, Finished(s, f, s.Of(f).next + 1, result))
  {
    hide OfFamily, RunnerSound;
    var t := Finished(s, f, s.Of(f).next + 1, result);
    forall g: Family
      ensures FamilySound(all, t, g)
    {
      assert FamilySound(all, s, g);
    }
    assert t.Of(f) == Ready(s.Of(f).next + 1, result) && t.Of(Other(f)) == s.Of(Other(f));
    assert Other(Other(f)) == f;
  }

  lemma TryKeepsPhase(all: seq<Candidate>, s: Race, f: Family, k: nat)
    requires PhaseSound(all, s) && s.Polled(f) && k < |OfFamily(all, f)|
    ensures PhaseSound(all, Try(all, s, f, k))
  {
    hide OfFamily;
    assert Try(all, s, f, k).Of(Other(f)) == s.Of(Other(f));
  }

  lemma TryKeepsSound(all: seq<Candidate>, s: Race, f: Family, k: nat)
    requires RaceSound(all, s) && s.Polled(f) && k < |OfFamily(all, f)| && Attempts(s.Of(f)) == k
    requires forall i | 0 <= i < k :: OfFamily(all, f)[i].outcome.Err?
    ensures RaceSound(all, Try(all, s, f, k))
  {
    var t := Try(all, s, f, k);
    hide OfFamily, FamilySound;
    assert PhaseSound(all, t) by {
      TryKeepsPhase(all, s, f, k);
    }
    hide Try, PhaseSound, Attempts;
    TrySound(all, s, f, k, V4Family);
    TrySound(all, s, f, k, V6Family);
  }

  lemma FamilyRunner(all: seq<Candidate>, s: Race, f: Family)
    requires RaceSound(all, s)
    ensures RunnerSound(OfFamily(all, f), s.Of(f))
  {
    hide OfFamily;
    assert FamilySound(all, s, f);
  }

  lemma HappenSound(all: seq<Candidate>, s: Race, e: Event)
    requires s.Fits(all) && RaceSound(all, s) && CanHappen(all, s, e)
    ensures RaceSound(all, Happen(all, s, e))
  {
    hide OfFamily, RaceSound, Try;
    var f := e.family;
    FamilyRunner(all, s, f);
    if e.DelayOver? {
      TryKeepsSound(all, s, f, 0);
    } else if OfFamily(all, f)[s.Of(f).next].outcome.Err? && s.Of(f).next + 1 < |OfFamily(all, f)| {
      TryKeepsSound(all, s, f, s.Of(f).next + 1);
    } else {
      LastAttemptSound(all, s, f);
    }
  }

  lemma LastAttemptSound(all: seq<Candidate>, s: Race, f: Family)
    requires s.Fits(all) && RaceSound(all, s) && CanHappen(all, s, AttemptOver(f))
    requires RunnerSound(OfFamily(all, f), s.Of(f))
    requires var list, k := OfFamily(all, f), s.Of(f).next;
      list[k].outcome.Ok? || k + 1 == |list|
    ensures RaceSound(all, Happen(all, s, AttemptOver(f)))
  {
    LastAttempt(all, s, f);
    hide *;
    FinishedSound(all, s, f, Outcome(OfFamily(all, f)));
  }

  lemma LastAttempt(all: seq<Candidate>, s: Race, f: Family)
    requires s.Fits(all) && CanHappen(all, s, AttemptOver(f)) && RunnerSound(OfFamily(all, f), s.Of(f))
    requires var list, k := OfFamily(all, f), s.Of(f).next;
      list[k].outcome.Ok? || k + 1 == |list|
    ensures s.Polled(f) && s.Of(f).Trying? && OfFamily(all, f) != []
    ensures var list, k := OfFamily(all, f), s.Of(f).next;
      && RunnerSound(list, Ready(k + 1, Outcome(list)))
      && Happen(all, s, AttemptOver(f)) == Finished(s, f, k + 1, Outcome(list))
  {
    hide OfFamily, Try, Tried, Outcome, Finished;
    ReadySound(OfFamily(all, f), s.Of(f).next);
  }

  /** In every order of events both futures do what trying their lists in order does. */
  lemma {:induction false} AfterSound(all: seq<Candidate>, ipv6First: bool, events: seq<Event>)
    requires all != []
    ensures var s := After(all, ipv6First, events);
      s.Some? ==> RaceSound(all, s.value)
  {
    if events == [] {
      BeginSound(all, ipv6First);
    } else if After(all, ipv6First, events).Some? {
      hide RaceSound, OfFamily, CanHappen, Happen;
      var before := events[..|events| - 1];
      AfterSound(all, ipv6First, before);
      HappenSound(all, After(all, ipv6First, before).value, events[|events| - 1]);
    }
  }

  lemma FailedTriedAll(all: seq<Candidate>, s: Race, f: Family)
    requires FamilySound(all, s, f) && Spent(all, s, f)
    ensures OfFamily(s.started, f) == OfFamily(all, f)
    ensures forall c <- OfFamily(all, f) :: c.outcome.Err?
  {
    hide OfFamily;
    var list := OfFamily(all, f);
    assert list[..|list|] == list;
  }

  lemma FamiliesAreAll(a: seq<Candidate>, f: Family)
    ensures multiset(a) == multiset(OfFamily(a, f)) + multiset(OfFamily(a, Other(f)))
    ensures |a| == |OfFamily(a, f)| + |OfFamily(a, Other(f))|
  {
    OrderedIsPermutation(a, f);
    hide OfFamily;
    assert |multiset(a)| == |a|;
  }

  lemma PrefixIsIncluded(a: seq<Candidate>, b: seq<Candidate>)
    requires a <= b
    ensures multiset(a) <= multiset(b)
  {
    assert b == a + b[|a|..];
  }

  /** The family whose future gave the result. */
  lemma ReturnedBy(all: seq<Candidate>, s: Race) returns (f: Family)
    requires RaceSound(all, s) && s.phase.Returned?
    ensures s.Of(f).Ready? && s.Of(f).result == s.phase.result && (s.phase.result.Err? ==> Spent(all, s, Other(f)))
    ensures FamilySound(all, s, f) && FamilySound(all, s, Other(f))
  {
    f := if ReturnedFrom(all, s, V4Family, s.phase.result) then V4Family else V6Family;
  }

  /** What the result of a race must be: a connection exactly when some candidate would connect, and then the
      first success of its family; a failure only after everything has been tried. */
  ghost predicate RightResult(all: seq<Candidate>, started: seq<Candidate>, r: Attempt) {
    && (r.Ok? <==> exists c <- all :: c.outcome.Ok?)
    && (exists f: Family :: OfFamily(all, f) != [] && r == Outcome(OfFamily(all, f)))
    && (r.Err? ==> multiset(started) == multiset(all))
  }

  lemma SuccessAmong(all: seq<Candidate>, f: Family)
    requires OfFamily(all, f) != []
    requires Outcome(OfFamily(all, f)).Err? ==> forall c <- OfFamily(all, Other(f)) :: c.outcome.Err?
    ensures Outcome(OfFamily(all, f)).Ok? <==> exists c <- all :: c.outcome.Ok?
  {
    FamilyMembers(all, f);
    FamilyMembers(all, Other(f));
    hide OfFamily;
    var mine, other := OfFamily(all, f), OfFamily(all, Other(f));
    if Outcome(mine).Ok? {
      var c :| c in mine && c.outcome.Ok?;
      assert c in all;
    }
    if c :| c in all && c.outcome.Ok? {
      assert c in mine || c in other;
    }
  }

  lemma ReturnedIs(all: seq<Candidate>, s: Race)
    requires RaceSound(all, s) && s.phase.Returned?
    ensures RightResult(all, s.started, s.phase.result)
  {
    var f := ReturnedBy(all, s);
    assert OfFamily(all, f) != [] && s.phase.result == Outcome(OfFamily(all, f));
    hide OfFamily, RaceSound, Outcome;
    if s.phase.result.Err? {
      FailedTriedAll(all, s, f);
      FailedTriedAll(all, s, Other(f));
      FamiliesAreAll(all, f);
      FamiliesAreAll(s.started, f);
    }
    hide FamilySound, Spent;
    SuccessAmong(all, f);
  }

  lemma StartedPrefix(all: seq<Candidate>, s: Race, f: Family)
    requires RaceSound(all, s)
    ensures OfFamily(s.started, f) <= OfFamily(all, f)
  {
    hide OfFamily, Tried, Outcome;
    assert FamilySound(all, s, f);
  }

  /** No candidate is tried more often than the resolver gave it. */
  lemma StartedIncluded(all: seq<Candidate>, s: Race)
    requires RaceSound(all, s)
    ensures forall f: Family :: OfFamily(s.started, f) <= OfFamily(all, f)
    ensures multiset(s.started) <= multiset(all)
  {
    hide OfFamily, RaceSound;
    forall f: Family
      ensures OfFamily(s.started, f) <= OfFamily(all, f)
    {
      StartedPrefix(all, s, f);
    }
    FamiliesAreAll(all, V4Family);
    FamiliesAreAll(s.started, V4Family);
    PrefixIsIncluded(OfFamily(s.started, V4Family), OfFamily(all, V4Family));
    PrefixIsIncluded(OfFamily(s.started, V6Family), OfFamily(all, V6Family));
  }

  lemma AfterOneMore(all: seq<Candidate>, ipv6First: bool, events: seq<Event>, e: Event)
    requires all != [] && After(all, ipv6First, events).Some?
    ensures var s := After(all, ipv6First, events).value;
      After(all, ipv6First, events + [e]) == if CanHappen(all, s, e) then Some(Happen(all, s, e)) else None
  {
    hide Happen, CanHappen, Begin;
    assert (events + [e])[..|events|] == events;
  }

  /** Each family has been tried in its order, from where it stood and never from the start again, and no
      candidate more often than the resolver gave it. */
  ghost predicate TriedInOrder(all: seq<Candidate>, started: seq<Candidate>) {
    && (forall f: Family :: OfFamily(started, f) <= OfFamily(all, f))
    && multiset(started) <= multiset(all)
  }

  /** Nothing can happen any more. */
  ghost predicate IsLast(all: seq<Candidate>, ipv6First: bool, events: seq<Event>)
    requires all != []
  {
    forall e: Event :: After(all, ipv6First, events + [e]).None?
  }

  lemma ReturnedIsLast(all: seq<Candidate>, ipv6First: bool, events: seq<Event>)
    requires all != [] && After(all, ipv6First, events).Some? && After(all, ipv6First, events).value.phase.Returned?
    ensures IsLast(all, ipv6First, events)
  {
    hide After, Happen;
    forall e: Event
      ensures After(all, ipv6First, events + [e]).None?
    {
      AfterOneMore(all, ipv6First, events, e);
    }
  }

  /** Whatever the order of events, the candidates are tried in order; the macro returns the right result, and
      nothing more is tried afterwards. */
  lemma RaceConnects(all: seq<Candidate>, ipv6First: bool, events: seq<Event>)
    requires all != [] && After(all, ipv6First, events).Some?
    ensures var s := After(all, ipv6First, events).value;
      && TriedInOrder(all, s.started)
      && (s.phase.Returned? ==>
        RightResult(all, s.started, s.phase.result) && IsLast(all, ipv6First, events))
  {
    hide After, OfFamily, RaceSound, RightResult, IsLast;
    var s := After(all, ipv6First, events).value;
    AfterSound(all, ipv6First, events);
    StartedIncluded(all, s);
    if s.phase.Returned? {
      ReturnedIs(all, s);
      ReturnedIsLast(all, ipv6First, events);
    }
  }

  /** Attempts that are over and delays that are. */
  function Progress(s: Race): nat {
    ProgressOf(s.v4) + ProgressOf(s.v6)
  }

  function ProgressOf(r: Runner): nat {
    match r
    case Asleep => 0
    case Trying(k) => k + 1
    case Ready(n, _) => n + 1
  }

  lemma HappenProgresses(all: seq<Candidate>, s: Race, e: Event)
    requires s.Fits(all) && CanHappen(all, s, e)
    ensures Progress(Happen(all, s, e)) == Progress(s) + 1
  {
    hide OfFamily;
  }

  lemma {:induction false} EventsCounted(all: seq<Candidate>, ipv6First: bool, events: seq<Event>)
    requires all != [] && After(all, ipv6First, events).Some?
    ensures Progress(After(all, ipv6First, events).value) == |events| + 1
  {
    if events == [] {
      var first := BeginTries(all, ipv6First);
    } else {
      hide OfFamily, Progress, Happen, CanHappen;
      var before := events[..|events| - 1];
      EventsCounted(all, ipv6First, before);
      HappenProgresses(all, After(all, ipv6First, before).value, events[|events| - 1]);
    }
  }

  /** The race returns within one event for each candidate and one for the delay. */
  lemma RaceIsShort(all: seq<Candidate>, ipv6First: bool, events: seq<Event>)
    requires all != [] && After(all, ipv6First, events).Some?
    ensures |events| <= |all| + 1
  {
    var s := After(all, ipv6First, events).value;
    AfterSound(all, ipv6First, events);
    EventsCounted(all, ipv6First, events);
    assert FamilySound(all, s, V4Family) && FamilySound(all, s, V6Family);
    hide OfFamily, After;
    FamiliesAreAll(all, V4Family);
  }

  lemma SomethingCanHappen(all: seq<Candidate>, s: Race) returns (e: Event)
    requires RaceSound(all, s) && !s.phase.Returned?
    ensures CanHappen(all, s, e)
  {
    hide OfFamily, RunnerSound;
    var f := if s.phase.Awaiting? then s.phase.family else V4Family;
    assert !s.Of(f).Ready? && OfFamily(all, f) != [];
    e := if s.Of(f).Asleep? then DelayOver(f) else AttemptOver(f);
  }

  /** Until the macro returns, something can happen; so a race whose attempts all end returns. */
  lemma RaceGoesOn(all: seq<Candidate>, ipv6First: bool, events: seq<Event>)
    requires all != [] && After(all, ipv6First, events).Some?
    ensures After(all, ipv6First, events).value.phase.Returned? ||
      exists e: Event :: After(all, ipv6First, events + [e]).Some?
    ensures |events| <= |all| + 1
  {
    RaceIsShort(all, ipv6First, events);
    var s := After(all, ipv6First, events).value;
    AfterSound(all, ipv6First, events);
    hide OfFamily, RaceSound, CanHappen, Happen, After;
    if !s.phase.Returned? {
      var e := SomethingCanHappen(all, s);
      AfterOneMore(all, ipv6First, events, e);
    }
  }

  // ------------------------------------------------------------------ the race as it is run

  /** The `async` block that tries the addresses of one family. */
  class ConnectFuture {
    const addrs: seq<Candidate>
    var asleep: bool
    /** The attempt under way, or how many there were. */
    var index: nat
    var result: Option<Attempt>

    function State(): Runner
      reads this
    {
      if result.Some? then Ready(index, result.value) else if asleep then Asleep else Trying(index)
    }

    constructor (list: seq<Candidate>)
      ensures addrs == list && State() == Asleep
    {
      addrs := list;
      asleep := true;
      index := 0;
      result := None;
    }

    /** Begins the first attempt. */
    method Wake() returns (next: Candidate)
      requires State() == Asleep && addrs != []
      modifies this
      ensures State() == Trying(0) && next == addrs[0]
    {
      asleep := false;
      index := 0;
      next := addrs[0];
    }

    /** The attempt under way is over; gives the one begun instead, if any. */
    method Resume() returns (next: Option<Candidate>)
      requires State().Trying? && State().next < |addrs|
      modifies this
      ensures var k := old(State()).next;
        match addrs[k].outcome
        case Ok(connection) => next == None && State() == Ready(k + 1, Ok((addrs[k].address, connection)))
        case Err(error) =>
          if k + 1 < |addrs| then next == Some(addrs[k + 1]) && State() == Trying(k + 1)
          else next == None && State() == Ready(k + 1, Err(error))
    {
      var candidate := addrs[index];
      index := index + 1;
      match candidate.outcome {
        case Ok(connection) =>
          result := Some(Ok((candidate.address, connection)));
          next := None;
        case Err(error) =>
          if index < |addrs| {
            next := Some(addrs[index]);
          } else {
            result := Some(Err(error));
            next := None;
          }
      }
    }
  }

  lemma {:induction false} PrefixHappens(all: seq<Candidate>, ipv6First: bool, events: seq<Event>, i: nat)
    requires all != [] && After(all, ipv6First, events).Some? && i <= |events|
    ensures After(all, ipv6First, events[..i]).Some?
  {
    if i == |events| {
      assert events[..i] == events;
    } else {
      var before := events[..|events| - 1];
      PrefixHappens(all, ipv6First, before, i);
      assert before[..i] == events[..i];
    }
  }

  lemma NextHappens(all: seq<Candidate>, ipv6First: bool, events: seq<Event>, i: nat)
    requires all != [] && After(all, ipv6First, events).Some? && i < |events|
    ensures After(all, ipv6First, events[..i]).Some? && After(all, ipv6First, events[..i + 1]).Some?
    ensures var s := After(all, ipv6First, events[..i]).value;
      && CanHappen(all, s, events[i])
      && After(all, ipv6First, events[..i + 1]).value == Happen(all, s, events[i])
  {
    hide After, Happen, CanHappen;
    PrefixHappens(all, ipv6First, events, i);
    PrefixHappens(all, ipv6First, events, i + 1);
    AfterOneMore(all, ipv6First, events[..i], events[i]);
    assert events[..i] + [events[i]] == events[..i + 1];
  }

  /** One event, for the future it is about. */
  method Drive(
    fut: ConnectFuture, e: Event, phase: Phase, started: seq<Candidate>, ghost all: seq<Candidate>, ghost s: Race)
    returns (phase': Phase, started': seq<Candidate>)
    requires s.Fits(all) && CanHappen(all, s, e) && s.phase == phase && s.started == started
    requires fut.addrs == OfFamily(all, e.family) && fut.State() == s.Of(e.family)
    modifies fut
    ensures Happen(all, s, e) == s.With(e.family, fut.State()).(phase := phase', started := started')
  {
    hide OfFamily;
    phase', started' := phase, started;
    match e {
      case DelayOver(_) =>
        var next := fut.Wake();
        started' := started + [next];
      case AttemptOver(family) =>
        var next := fut.Resume();
        if next.Some? {
          started' := started + [next.value];
        } else if fut.result.value.Err? && phase == Selecting {
          phase' := Awaiting(Other(family));
        } else {
          phase' := Returned(fut.result.value);
        }
    }
  }

  /** The macro, its futures driven by the given events: what it returns, if it does, and the attempts begun. */
  method LookupThenConnect(all: seq<Candidate>, ipv6First: bool, events: seq<Event>)
    returns (result: Option<Attempt>, started: seq<Candidate>)
    requires all != [] && After(all, ipv6First, events).Some?
    ensures var s := After(all, ipv6First, events).value;
      && started == s.started
      && result == if s.phase.Returned? then Some(s.phase.result) else None
  {
    hide OfFamily, Begin, Happen, CanHappen;
    var v4Addrs, v6Addrs := Split(all);
    var v4Fut := new ConnectFuture(v4Addrs);
    var v6Fut := new ConnectFuture(v6Addrs);
    var phase;
    phase, started := Launch(all, ipv6First, v4Fut, v6Fut);
    assert events[..0] == [];
    for i := 0 to |events|
      invariant v4Fut != v6Fut && fresh(v4Fut) && fresh(v6Fut)
      invariant v4Fut.addrs == OfFamily(all, V4Family) && v6Fut.addrs == OfFamily(all, V6Family)
      invariant After(all, ipv6First, events[..i]) == Some(Race(v4Fut.State(), v6Fut.State(), phase, started))
    {
      NextHappens(all, ipv6First, events, i);
      ghost var s := After(all, ipv6First, events[..i]).value;
      hide After;
      var fut := if events[i].family == V4Family then v4Fut else v6Fut;
      phase, started := Drive(fut, events[i], phase, started, all, s);
    }
    assert events[..|events|] == events;
    result := if phase.Returned? then Some(phase.result) else None;
  }

  /** Starts the race. */
  method Launch(ghost all: seq<Candidate>, ipv6First: bool, v4Fut: ConnectFuture, v6Fut: ConnectFuture)
    returns (phase: Phase, started: seq<Candidate>)
    requires all != [] && v4Fut != v6Fut && v4Fut.State() == v6Fut.State() == Asleep
    requires v4Fut.addrs == OfFamily(all, V4Family) && v6Fut.addrs == OfFamily(all, V6Family)
    modifies v4Fut, v6Fut
    ensures Begin(all, ipv6First) == Race(v4Fut.State(), v6Fut.State(), phase, started)
  {
    SomeFamily(all, V4Family);
    hide OfFamily;
    phase := Selecting;
    if v6Fut.addrs == [] {
      phase := Awaiting(V4Family);
    } else if v4Fut.addrs == [] {
      phase := Awaiting(V6Family);
    }
    var first := if phase == Awaiting(V4Family) || (phase == Selecting && !ipv6First) then v4Fut else v6Fut;
    var next := first.Wake();
    started := [next];
    assert [] + [next] == [next];
  }

  // ------------------------------------------------------------------ the race in time

  const FIXED_DELAY: nat := 300

  function TotalTime(list: seq<Candidate>): nat {
    if list == [] then 0 else TotalTime(list[..|list| - 1]) + list[|list| - 1].duration
  }

  /** No event happens, in milliseconds from the start, when an attempt of the preferred family should have been
      over already, and the delay is not over early. */
  predicate OnTime(all: seq<Candidate>, ipv6First: bool, events: seq<Event>, times: seq<nat>)
    requires all != []
  {
    && |times| == |events|
    && forall i | 0 <= i < |events| && After(all, ipv6First, events[..i]).Some? ::
      InTime(all, if ipv6First then V6Family else V4Family,
             After(all, ipv6First, events[..i]).value, events[i], times[i])
  }

  predicate InTime(all: seq<Candidate>, mine: Family, s: Race, e: Event, time: nat)
    requires s.Fits(all)
  {
    && (e.DelayOver? ==> time >= FIXED_DELAY)
    && (s.Polled(mine) && s.Of(mine).Trying? ==> time <= TotalTime(OfFamily(all, mine)[..s.Of(mine).next + 1]))
  }

  lemma {:induction false} TotalTimeGrows(list: seq<Candidate>, n: nat)
    requires n <= |list|
    ensures TotalTime(list[..n]) <= TotalTime(list)
  {
    if n < |list| {
      var init := list[..|list| - 1];
      TotalTimeGrows(init, n);
      assert init[..n] == list[..n];
    } else {
      assert list[..n] == list;
    }
  }

  /** Only the preferred family has been tried so far, and only its result may have been returned. */
  predicate OnlyPreferred(all: seq<Candidate>, mine: Family, s: Race)
    requires OfFamily(all, mine) != []
  {
    && s.Of(Other(mine)).Asleep?
    && (if s.phase.Returned? then s.phase.result == Outcome(OfFamily(all, mine))
        else s.Polled(mine) && s.Of(mine).Trying?)
  }

  /** While trying a list that has a success, the attempt under way is one of those that will be made. */
  lemma TryingWithinTried(list: seq<Candidate>, k: nat)
    requires k < |list| && (forall i | 0 <= i < k :: list[i].outcome.Err?) && Outcome(list).Ok?
    ensures k < |Tried(list)| && list[..k + 1] == Tried(list)[..k + 1]
    ensures list[k].outcome.Err? ==> k + 1 < |list|
    ensures list[k].outcome.Ok? ==> Outcome(list) == Ok((list[k].address, list[k].outcome.value))
  {
    if list[k].outcome.Ok? {
      FirstSuccessUnique(list, k);
    }
  }

  /** The preferred family is quick: its list has a success within the delay. */
  predicate Quick(list: seq<Candidate>) {
    list != [] && Outcome(list).Ok? && TotalTime(Tried(list)) < 300
  }

  lemma NextIsPreferred(all: seq<Candidate>, mine: Family, s: Race, e: Event, time: nat)
    requires Quick(OfFamily(all, mine)) && RunnerSound(OfFamily(all, mine), s.Of(mine))
    requires s.Fits(all) && CanHappen(all, s, e) && OnlyPreferred(all, mine, s) && InTime(all, mine, s, e, time)
    ensures e == AttemptOver(mine) && s.Polled(mine) && s.Of(mine).Trying?
  {
    var list := OfFamily(all, mine);
    hide OfFamily, Outcome, Tried, TotalTime;
    TryingWithinTried(list, s.Of(mine).next);
    TotalTimeGrows(Tried(list), s.Of(mine).next + 1);
  }

  lemma StaysPreferred(all: seq<Candidate>, mine: Family, s: Race)
    requires Quick(OfFamily(all, mine)) && RunnerSound(OfFamily(all, mine), s.Of(mine))
    requires s.Fits(all) && CanHappen(all, s, AttemptOver(mine)) && OnlyPreferred(all, mine, s)
    ensures OnlyPreferred(all, mine, Happen(all, s, AttemptOver(mine)))
  {
    hide OfFamily, Outcome, Tried, TotalTime, RunnerSound;
    assert forall i | 0 <= i < s.Of(mine).next :: OfFamily(all, mine)[i].outcome.Err? by {
      TryingFailed(OfFamily(all, mine), s.Of(mine));
    }
    TryingWithinTried(OfFamily(all, mine), s.Of(mine).next);
  }

  lemma TryingFailed(list: seq<Candidate>, r: Runner)
    requires RunnerSound(list, r) && r.Trying?
    ensures forall i | 0 <= i < r.next :: i < |list| && list[i].outcome.Err?
  {
  }

  lemma OnTimePrefix(all: seq<Candidate>, ipv6First: bool, events: seq<Event>, times: seq<nat>, n: nat)
    requires all != [] && OnTime(all, ipv6First, events, times) && n < |events|
    ensures n < |times|
    ensures OnTime(all, ipv6First, events[..n], times[..n])
    ensures var s := After(all, ipv6First, events[..n]);
      s.Some? ==> InTime(all, if ipv6First then V6Family else V4Family, s.value, events[n], times[n])
  {
    hide InTime, After;
    forall i | 0 <= i < n
      ensures events[..n][..i] == events[..i]
    {
    }
  }

  lemma {:induction false} OnlyPreferredTried(
    all: seq<Candidate>, ipv6First: bool, events: seq<Event>, times: seq<nat>)
    requires all != [] && After(all, ipv6First, events).Some? && OnTime(all, ipv6First, events, times)
    requires OfFamily(all, Preferred(ipv6First)) != [] && Quick(OfFamily(all, Preferred(ipv6First)))
    ensures OnlyPreferred(all, Preferred(ipv6First), After(all, ipv6First, events).value)
  {
    PreferredIs(ipv6First);
    hide *;
    var mine := Preferred(ipv6First);
    if events == [] {
      BeginPreferred(all, ipv6First);
    } else {
      var n := |events| - 1;
      NextHappens(all, ipv6First, events, n);
      assert events[..n + 1] == events;
      OnTimePrefix(all, ipv6First, events, times, n);
      OnlyPreferredTried(all, ipv6First, events[..n], times[..n]);
      AfterSound(all, ipv6First, events[..n]);
      StepPreferred(all, mine, After(all, ipv6First, events[..n]).value, events[n], times[n]);
    }
  }

  lemma PreferredIs(ipv6First: bool)
    ensures Preferred(ipv6First) == if ipv6First then V6Family else V4Family
  {
  }

  lemma BeginPreferred(all: seq<Candidate>, ipv6First: bool)
    requires all != [] && OfFamily(all, Preferred(ipv6First)) != []
    ensures After(all, ipv6First, []) == Some(Begin(all, ipv6First))
    ensures OnlyPreferred(all, Preferred(ipv6First), Begin(all, ipv6First))
  {
    hide OfFamily;
  }

  lemma StepPreferred(all: seq<Candidate>, mine: Family, s: Race, e: Event, time: nat)
    requires OfFamily(all, mine) != [] && Quick(OfFamily(all, mine)) && RaceSound(all, s)
    requires s.Fits(all) && CanHappen(all, s, e) && OnlyPreferred(all, mine, s) && InTime(all, mine, s, e, time)
    ensures OnlyPreferred(all, mine, Happen(all, s, e))
  {
    hide *;
    SoundRunner(all, s, mine);
    NextIsPreferred(all, mine, s, e, time);
    StaysPreferred(all, mine, s);
  }

  lemma SoundRunner(all: seq<Candidate>, s: Race, f: Family)
    requires RaceSound(all, s)
    ensures FamilySound(all, s, f) && RunnerSound(OfFamily(all, f), s.Of(f))
  {
    hide OfFamily, RunnerSound;
  }

  /** If the preferred family connects within the 300 milliseconds given to it alone, nothing else is tried and its
      connection is the one returned. */
  lemma PreferredWinsWithinDelay(all: seq<Candidate>, ipv6First: bool, events: seq<Event>, times: seq<nat>)
    requires all != [] && After(all, ipv6First, events).Some? && OnTime(all, ipv6First, events, times)
    requires Quick(OfFamily(all, if ipv6First then V6Family else V4Family))
    ensures var s := After(all, ipv6First, events).value;
      var mine, other := if ipv6First then V6Family else V4Family, if ipv6First then V4Family else V6Family;
      && OfFamily(s.started, other) == []
      && (s.phase.Returned? ==> s.phase.result == Outcome(OfFamily(all, mine)))
  {
    OnlyPreferredTried(all, ipv6First, events, times);
    AfterSound(all, ipv6First, events);
    hide RaceSound, OfFamily, Outcome, OnTime, After;
    NothingStarted(all, After(all, ipv6First, events).value, Preferred(ipv6First));
  }

  /** If its first attempt takes that long, the other family starts exactly then. */
  lemma OtherStartsAfterDelay(all: seq<Candidate>, ipv6First: bool, time: nat)
    requires all != []
    requires forall f: Family :: OfFamily(all, f) != []
    requires var mine := OfFamily(all, if ipv6First then V6Family else V4Family); mine[0].duration >= time
    ensures var mine, other := if ipv6First then V6Family else V4Family, if ipv6First then V4Family else V6Family;
      var s := After(all, ipv6First, [DelayOver(other)]);
      && s.Some? && s.value.started == [OfFamily(all, mine)[0], OfFamily(all, other)[0]]
      && (OnTime(all, ipv6First, [DelayOver(other)], [time]) <==> time >= 300)
  {
    var mine, other := if ipv6First then V6Family else V4Family, if ipv6First then V4Family else V6Family;
    var events := [DelayOver(other)];
    assert events[..0] == [];
    var list := OfFamily(all, mine);
    hide OfFamily;
    assert list[..1] == [list[0]] && list[..1][..0] == [];
    assert TotalTime(list[..1]) == list[0].duration;
    AfterOneMore(all, ipv6First, [], DelayOver(other));
    assert [] + events == events;
    assert After(all, ipv6First, events[..0]) == Some(Begin(all, ipv6First));
  }

  lemma NothingStarted(all: seq<Candidate>, s: Race, mine: Family)
    requires OfFamily(all, mine) != [] && RaceSound(all, s) && OnlyPreferred(all, mine, s)
    ensures OfFamily(s.started, Other(mine)) == []
  {
    hide OfFamily;
    SoundRunner(all, s, Other(mine));
  }
}
