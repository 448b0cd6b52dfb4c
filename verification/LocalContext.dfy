/** The reverse lookup cache of `local/context.rs`: it remembers only the addresses whose routing differs from
    what the ACL says. */
module LocalContext {
  import opened Prelude
  import opened Net
  import opened Acl

  type Cache = map<IpAddr, bool>

  datatype Event = Add(ip: IpAddr, forward: bool) | Evict(ip: IpAddr)

  /** Without an ACL everything is proxied. */
  predicate AclForwards(acl: Option<AccessControl>, ip: IpAddr) {
    match acl
    case None => true
    case Some(a) => a.CheckIpInProxyList(ip)
  }

  function Happened(acl: Option<AccessControl>, cache: Cache, e: Event): Cache {
    match e
    case Add(ip, forward) => if forward != AclForwards(acl, ip) then cache[ip := forward] else cache - {ip}
    case Evict(ip) => cache - {ip}
  }

  function Run(acl: Option<AccessControl>, events: seq<Event>): Cache {
    if events == [] then map[] else Happened(acl, Run(acl, events[..|events| - 1]), events[|events| - 1])
  }

  /** Whether a connection to an address goes out directly. */
  predicate Bypassed(acl: Option<AccessControl>, cache: Cache, ip: IpAddr) {
    match acl
    case None => false
    case Some(a) => if ip in cache then !cache[ip] else !a.CheckIpInProxyList(ip)
  }

  /** The flag of the latest addition of an address since it was last evicted. */
  function LatestFlag(events: seq<Event>, ip: IpAddr): Option<bool> {
    if events == [] then None
    else
      match events[|events| - 1]
      case Add(i, forward) => if i == ip then Some(forward) else LatestFlag(events[..|events| - 1], ip)
      case Evict(i) => if i == ip then None else LatestFlag(events[..|events| - 1], ip)
  }

  /** After any additions and evictions the cache holds exactly the addresses whose latest flag differs from
      the ACL's answer, with that flag. */
  lemma {:induction false} CacheHoldsExceptions(acl: Option<AccessControl>, events: seq<Event>, ip: IpAddr)
    ensures var flag := LatestFlag(events, ip);
      && (ip in Run(acl, events) <==> flag.Some? && flag.value != AclForwards(acl, ip))
      && (ip in Run(acl, events) ==> Run(acl, events)[ip] == flag.value)
  {
    if events != [] {
      CacheHoldsExceptions(acl, events[..|events| - 1], ip);
    }
  }

  /** With an ACL, routing follows the latest flag of the address, or the ACL if there is none; without an
      ACL nothing is bypassed. */
  lemma BypassFollowsLatest(acl: Option<AccessControl>, events: seq<Event>, ip: IpAddr)
    ensures Bypassed(acl, Run(acl, events), ip) <==>
      acl.Some? && !(if LatestFlag(events, ip).Some? then LatestFlag(events, ip).value else AclForwards(acl, ip))
  {
    CacheHoldsExceptions(acl, events, ip);
  }

  /** An address is proxied if there is no ACL, if the black list does not list it in black-list mode, or if the
      white list lists it in white-list mode. */
  lemma AclForwardsByLists(acl: Option<AccessControl>, ip: IpAddr)
    ensures AclForwards(acl, ip) ==
      if acl.None? then true
      else if acl.value.mode.BlackList? then Wide(ip) !in Hosts(acl.value.blackList)
      else Wide(ip) in Hosts(acl.value.whiteList)
  {
    if acl.Some? {
      IpDecidedByHosts(acl.value, ip);
    }
  }

  /** An address without a flag is bypassed exactly if there is an ACL and its black list, in black-list mode, lists
      it or its white list, in white-list mode, does not. */
  lemma UnflaggedByLists(acl: Option<AccessControl>, events: seq<Event>, ip: IpAddr)
    requires LatestFlag(events, ip).None?
    ensures Bypassed(acl, Run(acl, events), ip) ==
      if acl.None? then false
      else if acl.value.mode.BlackList? then Wide(ip) in Hosts(acl.value.blackList)
      else Wide(ip) !in Hosts(acl.value.whiteList)
  {
    BypassFollowsLatest(acl, events, ip);
    AclForwardsByLists(acl, ip);
  }

  /** What a lookup records for its answers. */
  function Recorded(answers: seq<IpAddr>, forward: bool): seq<Event> {
    if answers == [] then [] else Recorded(answers[..|answers| - 1], forward) + [Add(answers[|answers| - 1], forward)]
  }

  lemma {:induction false} RecordedFlags(events: seq<Event>, answers: seq<IpAddr>, forward: bool, ip: IpAddr)
    ensures LatestFlag(events + Recorded(answers, forward), ip) ==
      if ip in answers then Some(forward) else LatestFlag(events, ip)
  {
    if answers == [] {
      assert events + [] == events;
    } else {
      var n := |answers| - 1;
      var before := events + Recorded(answers[..n], forward);
      RecordedFlags(events, answers[..n], forward, ip);
      assert events + Recorded(answers, forward) == before + [Add(answers[n], forward)];
      assert (before + [Add(answers[n], forward)])[..|before|] == before;
      assert answers == answers[..n] + [answers[n]];
    }
  }

  /** After a lookup, every address it answered with is routed as the lookup was, and all others as before. */
  lemma AnswersRoutedAsLookup(
    acl: Option<AccessControl>, events: seq<Event>, answers: seq<IpAddr>, forward: bool, ip: IpAddr)
    requires acl.Some?
    ensures Bypassed(acl, Run(acl, events + Recorded(answers, forward)), ip) ==
      if ip in answers then !forward else Bypassed(acl, Run(acl, events), ip)
  {
    RecordedFlags(events, answers, forward, ip);
    BypassFollowsLatest(acl, events, ip);
    BypassFollowsLatest(acl, events + Recorded(answers, forward), ip);
  }

  class ServiceContext {
    const acl: Option<AccessControl>
    var reverseLookupCache: Cache
    /** Everything that happened to the cache. */
    ghost var events: seq<Event>

    ghost predicate Valid()
      reads this
    {
      reverseLookupCache == Run(acl, events)
    }

    constructor (a: Option<AccessControl>)
      ensures Valid() && acl == a && events == []
    {
      acl := a;
      reverseLookupCache := map[];
      events := [];
    }

    method AddToReverseLookupCache(ip: IpAddr, forward: bool)
      requires Valid()
      modifies this
      ensures Valid() && events == old(events) + [Add(ip, forward)]
    {
      events := events + [Add(ip, forward)];
      assert events[..|events| - 1] == old(events);
      var isException := forward != AclForwards(acl, ip);
      if ip in reverseLookupCache {
        if isException {
          reverseLookupCache := reverseLookupCache[ip := forward];
        } else {
          // The ACL alone now gives the right answer
          reverseLookupCache := reverseLookupCache - {ip};
        }
      } else if isException {
        reverseLookupCache := reverseLookupCache[ip := forward];
      } else {
        assert reverseLookupCache - {ip} == reverseLookupCache;
      }
    }

    /** Expiry or displacement of an entry. */
    method EvictEntry(ip: IpAddr)
      requires Valid()
      modifies this
      ensures Valid() && events == old(events) + [Evict(ip)]
    {
      events := events + [Evict(ip)];
      assert events[..|events| - 1] == old(events);
      reverseLookupCache := reverseLookupCache - {ip};
    }

    /** Records the addresses a lookup answered with. */
    method RecordAnswers(answers: seq<IpAddr>, forward: bool)
      requires Valid()
      modifies this
      ensures Valid() && events == old(events) + Recorded(answers, forward)
    {
      for i := 0 to |answers|
        invariant Valid() && events == old(events) + Recorded(answers[..i], forward)
      {
        AddToReverseLookupCache(answers[i], forward);
        assert answers[..i + 1][..i] == answers[..i];
      }
      assert answers[..|answers|] == answers;
    }

    method CheckTargetBypassed(ip: IpAddr) returns (bypassed: bool)
      requires Valid()
      ensures bypassed ==
        if acl.None? then false
        else if LatestFlag(events, ip).Some? then !LatestFlag(events, ip).value
        else if acl.value.mode.BlackList? then Wide(ip) in Hosts(acl.value.blackList)
        else Wide(ip) !in Hosts(acl.value.whiteList)
    {
      BypassFollowsLatest(acl, events, ip);
      AclForwardsByLists(acl, ip);
      if acl.None? {
        return false;
      }
      if ip in reverseLookupCache {
        return !reverseLookupCache[ip];
      }
      return !acl.value.CheckIpInProxyList(ip);
    }
  }
}
