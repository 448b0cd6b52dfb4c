/** The race between the remote lookup and the local decider in `acl_lookup`, `local/dns/server.rs`. */
module LookupRace {
  import opened Prelude

  /** A response, or the error that took its place. */
  datatype Response = Response(id: nat)

  /** What the two futures will give: the remote response, and the local response with the decider's verdict
      on it. */
  datatype Futures = Futures(remote: Response, local: Response, keepLocal: bool)

  function Decision(f: Futures): Option<Response> {
    if f.keepLocal then Some(f.local) else None
  }

  /** State of the select loop. The flags `remoteTaken` and `deciderTaken` say that a future gave its value. */
  datatype State =
    | Racing(useRemote: bool, remoteResponse: Option<Response>, remoteTaken: bool, deciderTaken: bool)
    | Returned(response: Response, forwarded: bool)
    | Panicked

  datatype Branch = RemoteBranch | DeciderBranch | ElseBranch

  const BEGIN: State := Racing(false, None, false, false)

  /** The branch conditions of the select statement; the last arm runs when no other may. */
  predicate Open(s: State, b: Branch)
    requires s.Racing?
  {
    match b
    case RemoteBranch => s.remoteResponse.None?
    case DeciderBranch => !s.useRemote
    case ElseBranch => s.remoteResponse.Some? && s.useRemote
  }

  /** One pass of the loop, in the branch whose future completes. A future polled again after it gave its
      value panics, and so does the last arm. */
  function Pass(f: Futures, s: State, b: Branch): State
    requires s.Racing? && Open(s, b)
  {
    match b
    case RemoteBranch =>
      if s.remoteTaken then Panicked
      else if s.useRemote then Returned(f.remote, true)
      else s.(remoteResponse := Some(f.remote), remoteTaken := true)
    case DeciderBranch =>
      if s.deciderTaken then Panicked
      else if Decision(f).Some? then Returned(Decision(f).value, false)
      else if s.remoteResponse.Some? then Returned(s.remoteResponse.value, true)
      else s.(useRemote := true, deciderTaken := true)
    case ElseBranch => Panicked
  }

  /** The state after passes through the given branches, if that order is possible. */
  function After(f: Futures, order: seq<Branch>): Option<State> {
    if order == [] then Some(BEGIN)
    else
      var last := order[|order| - 1];
      match After(f, order[..|order| - 1])
      case Some(s) => if s.Racing? && Open(s, last) then Some(Pass(f, s, last)) else None
      case None => None
  }

  /** In every order of completions: the two flags never hold together, no future is polled twice, the last
      arm is never taken, and the lookup returns nothing but the local response if the decider keeps it and the
      remote one otherwise, within two passes. */
  lemma {:induction false} RaceIsDetermined(f: Futures, order: seq<Branch>)
    ensures After(f, order).Some? ==>
      var s := After(f, order).value;
      && s != Panicked
      && (s.Returned? ==>
        && s == (if f.keepLocal then Returned(f.local, false) else Returned(f.remote, true))
        && 1 <= |order| <= 2)
      && (s.Racing? ==>
        && !(s.useRemote && s.remoteResponse.Some?)
        && (s.remoteTaken <==> s.remoteResponse.Some?) && (s.deciderTaken <==> s.useRemote)
        && (s.remoteTaken ==> s.remoteResponse == Some(f.remote)) && (s.useRemote ==> !f.keepLocal)
        && |order| == (if s.remoteTaken then 1 else 0) + (if s.deciderTaken then 1 else 0))
  {
    if order != [] {
      RaceIsDetermined(f, order[..|order| - 1]);
    }
  }

  /** While the race is on, some future that has not given its value may still be taken; so a lookup whose
      futures both complete returns. */
  lemma RaceGoesOn(f: Futures, order: seq<Branch>)
    requires After(f, order).Some? && After(f, order).value.Racing?
    ensures var s := After(f, order).value;
      (Open(s, RemoteBranch) && !s.remoteTaken) || (Open(s, DeciderBranch) && !s.deciderTaken)
  {
    RaceIsDetermined(f, order);
  }

  /** The lookup itself. `byQuery` is what the query alone decides; `remoteFirst` is the runtime's choice in
      each pass, followed whenever that branch is open. */
  method AclLookup(byQuery: Option<bool>, f: Futures, remoteFirst: seq<bool>)
    returns (response: Response, forwarded: bool)
    requires |remoteFirst| >= 2
    ensures byQuery == Some(true) ==> (response, forwarded) == (f.remote, true)
    ensures byQuery == Some(false) ==> (response, forwarded) == (f.local, false)
    ensures byQuery == None ==> (response, forwarded) == if f.keepLocal then (f.local, false) else (f.remote, true)
  {
    if byQuery.Some? {
      if byQuery.value {
        return f.remote, true;
      }
      return f.local, false;
    }
    var useRemote := false;
    var remoteResponse: Option<Response> := None;
    var pass := 0;
    ghost var order: seq<Branch> := [];
    while true
      invariant pass == |order|
      invariant After(f, order) == Some(Racing(useRemote, remoteResponse, remoteResponse.Some?, useRemote))
      decreases 2 - |order|
    {
      RaceIsDetermined(f, order);
      var remoteOpen, deciderOpen := remoteResponse.None?, !useRemote;
      if remoteOpen && (!deciderOpen || remoteFirst[pass]) {
        assert (order + [RemoteBranch])[..|order|] == order;
        RaceIsDetermined(f, order + [RemoteBranch]);
        order, pass := order + [RemoteBranch], pass + 1;
        if useRemote {
          return f.remote, true;
        }
        remoteResponse := Some(f.remote);
      } else if deciderOpen {
        assert (order + [DeciderBranch])[..|order|] == order;
        RaceIsDetermined(f, order + [DeciderBranch]);
        order, pass := order + [DeciderBranch], pass + 1;
        if f.keepLocal {
          return f.local, false;
        } else if remoteResponse.Some? {
          return remoteResponse.value, true;
        }
        useRemote := true;
      } else {
        assert false;
      }
    }
  }
}
