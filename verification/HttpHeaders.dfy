/** Hop-by-hop headers and connection persistence of the HTTP proxy, `local/http/http_service.rs` and
    `local/http/utils.rs`. */
module HttpHeaders {
  import opened CommaLists
  import opened DomainNames
  import opened Prelude

  datatype Version = Http09 | Http10 | Http11 | Http2 | Http3

  /** A header value: visible ASCII text, or bytes that are not. */
  datatype Value = Readable(text: string) | Unreadable

  /** Header names in lower case, each with its values in order. */
  type Headers = map<string, seq<Value>>

  predicate SameText(a: string, b: string) {
    Lower(a) == Lower(b)
  }

  // ------------------------------------------------------------------ hop-by-hop headers

  const HOP_BY_HOP_HEADERS: seq<string> := [
    "Keep-Alive", "Transfer-Encoding", "TE", "Connection", "Trailer", "Upgrade",
    "Proxy-Authorization", "Proxy-Authenticate", "Proxy-Connection"
  ]

  function LowerSet(names: seq<string>): set<string> {
    set n <- names :: Lower(n)
  }

  /** One of the nine fixed names, in lower case. */
  predicate IsFixed(name: string) {
    name in LowerSet(HOP_BY_HOP_HEADERS)
  }

  function GetAll(h: Headers, name: string): seq<Value> {
    if Lower(name) in h then h[Lower(name)] else []
  }

  /** A value that lists header names: readable and not the bare command `close`. */
  predicate ListsNames(v: Value) {
    v.Readable? && !SameText(v.text, "close")
  }

  predicate ListsName(v: Value, name: string) {
    ListsNames(v) && NamedIn(SplitComma(v.text), name)
  }

  predicate SomeListsName(values: seq<Value>, name: string) {
    exists i :: 0 <= i < |values| && ListsName(values[i], name)
  }

  /** A header that must not be forwarded. */
  predicate IsHop(h: Headers, name: string) {
    IsFixed(name) || SomeListsName(GetAll(h, "Connection"), name) || SomeListsName(GetAll(h, "Proxy-Connection"), name)
  }

  /** The headers that are forwarded, unchanged. */
  function Forwarded(h: Headers): Headers {
    map name | name in h && !IsHop(h, name) :: h[name]
  }

  // ------------------------------------------------------------------ persistence

  function Verdict(v: Value): Option<bool> {
    if v.Unreadable? then None
    else if SameText(v.text, "close") then Some(false)
    else if exists p <- SplitComma(v.text) :: SameText(Trim(p), "keep-alive") then Some(true)
    else None
  }

  /** The verdict of the last value that has one. */
  function KeepAliveVal(values: seq<Value>): Option<bool> {
    if values == [] then None
    else
      var n := |values| - 1;
      if Verdict(values[n]).Some? then Verdict(values[n]) else KeepAliveVal(values[..n])
  }

  predicate KeepsByDefault(version: Version) {
    version != Http09 && version != Http10
  }

  predicate KeepsAlive(version: Version, h: Headers, checkProxy: bool) {
    var own, proxy := KeepAliveVal(GetAll(h, "Connection")), KeepAliveVal(GetAll(h, "Proxy-Connection"));
    if own.Some? then own.value
    else if checkProxy && proxy.Some? then proxy.value
    else KeepsByDefault(version)
  }

  function WithKeepAlive(version: Version, h: Headers, keepAlive: bool): Headers {
    if keepAlive == KeepsByDefault(version) then h
    else h[Lower("Connection") := [Readable(if keepAlive then "keep-alive" else "close")]]
  }

  // ------------------------------------------------------------------ which headers go, and which is set

  /** Names that are never forwarded. */
  const NEVER_FORWARDED: set<string> := {
    "keep-alive", "transfer-encoding", "te", "connection", "trailer", "upgrade",
    "proxy-authorization", "proxy-authenticate", "proxy-connection"
  }

  lemma LowerProxyNames()
    ensures Lower("Proxy-Authorization") == "proxy-authorization"
    ensures Lower("Proxy-Authenticate") == "proxy-authenticate"
  {
    LowerIs("Proxy-Authorization", "proxy-authorization");
    LowerIs("Proxy-Authenticate", "proxy-authenticate");
    hide Lower;
  }

  lemma LowerFixedNames()
    ensures Lower("Keep-Alive") == "keep-alive" && Lower("Transfer-Encoding") == "transfer-encoding"
    ensures Lower("TE") == "te" && Lower("Trailer") == "trailer" && Lower("Upgrade") == "upgrade"
  {
    LowerIs("Keep-Alive", "keep-alive");
    LowerIs("Transfer-Encoding", "transfer-encoding");
    LowerIs("TE", "te");
    LowerIs("Trailer", "trailer");
    LowerIs("Upgrade", "upgrade");
    hide Lower;
  }

  lemma FixedNames(name: string)
    ensures IsFixed(name) <==> name in NEVER_FORWARDED
  {
    hide Lower;
    LowerNames();
    LowerProxyNames();
    LowerFixedNames();
    FixedAre(HOP_BY_HOP_HEADERS);
  }

  lemma FixedAre(names: seq<string>)
    requires |names| == 9
    ensures LowerSet(names) == {
      Lower(names[0]), Lower(names[1]), Lower(names[2]), Lower(names[3]), Lower(names[4]), Lower(names[5]),
      Lower(names[6]), Lower(names[7]), Lower(names[8])}
  {
    hide Lower;
    assert names ==
      [names[0], names[1], names[2], names[3], names[4], names[5], names[6], names[7], names[8]];
  }

  /** Some value, not the bare command `close`, lists the name. */
  ghost predicate Mentioned(values: seq<Value>, name: string) {
    exists i :: 0 <= i < |values| &&
      values[i].Readable? && Lower(values[i].text) != "close" && Lists(values[i].text, name)
  }

  lemma MentionedIs(values: seq<Value>, name: string)
    ensures SomeListsName(values, name) <==> Mentioned(values, name)
  {
    LowerNames();
    hide Lower, NamedIn, SplitComma, Lists;
    forall i | 0 <= i < |values| && values[i].Readable?
      ensures ListsName(values[i], name) <==> Lower(values[i].text) != "close" && Lists(values[i].text, name)
    {
      NamedInExact(values[i].text, name);
    }
  }

  function ValuesOf(h: Headers, name: string): seq<Value> {
    if name in h then h[name] else []
  }

  /** A header is forwarded, with all its values, exactly if it is none of the nine names and no value of
      Connection or Proxy-Connection lists it. */
  lemma ForwardedExact(h: Headers, name: string)
    ensures name in Forwarded(h) <==>
      && name in h && name !in NEVER_FORWARDED
      && !Mentioned(ValuesOf(h, "connection"), name) && !Mentioned(ValuesOf(h, "proxy-connection"), name)
    ensures name in Forwarded(h) ==> Forwarded(h)[name] == h[name]
  {
    LowerNames();
    FixedNames(name);
    hide Lower, IsFixed, SomeListsName, Mentioned;
    MentionedIs(ValuesOf(h, "connection"), name);
    MentionedIs(ValuesOf(h, "proxy-connection"), name);
  }

  lemma CommaKept(s: string, i: nat)
    requires i < |s| && s[i] == ','
    ensures Lower(s) != "close"
  {
    var word := "close";
    assert LowerChar(',') == ',';
    assert forall k | 0 <= k < |word| :: word[k] != ',';
    hide LowerChar;
    assert |Lower(s)| == |s| && Lower(s)[i] == LowerChar(s[i]);
    hide Lower;
  }

  /** A header listed between commas and blanks goes, however its name is spelled there. */
  lemma ListedHeaderGoes(
    h: Headers, key: string, i: nat, a: string, left: string, n: string, right: string, b: string)
    requires key in {"connection", "proxy-connection"} && key in h && i < |h[key]|
    requires h[key][i] == Readable(a + "," + left + n + right + "," + b)
    requires AllBlank(left) && AllBlank(right) && ',' !in n && IsTrimmed(n)
    ensures Lower(n) !in Forwarded(h)
  {
    hide Lower, Lists, Forwarded;
    ForwardedExact(h, Lower(n));
    BetweenCommas(a, left, n, right, b);
    CommaKept(h[key][i].text, |a|);
    assert Mentioned(ValuesOf(h, key), Lower(n));
  }

  /** The Connection header is set exactly when the wish differs from what the version does by default. */
  lemma SetExact(version: Version, h: Headers, keepAlive: bool)
    ensures WithKeepAlive(version, h, keepAlive) ==
      if version.Http09? || version.Http10? then
        if keepAlive then h["connection" := [Readable("keep-alive")]] else h
      else
        if keepAlive then h else h["connection" := [Readable("close")]]
  {
    LowerNames();
  }

  // ------------------------------------------------------------------ what they do together

  lemma LowerIs(s: string, t: string)
    requires |s| == |t| && forall i | 0 <= i < |s| :: LowerChar(s[i]) == t[i]
    ensures Lower(s) == t
  {
  }

  lemma LowerNames()
    ensures Lower("Connection") == "connection" && Lower("Proxy-Connection") == "proxy-connection"
    ensures Lower("close") == "close" && Lower("keep-alive") == "keep-alive"
  {
    LowerIs("Connection", "connection");
    LowerIs("Proxy-Connection", "proxy-connection");
    LowerIs("close", "close");
    LowerIs("keep-alive", "keep-alive");
  }

  lemma FixedMembers()
    ensures IsFixed("connection") && IsFixed("proxy-connection") && IsFixed("keep-alive")
  {
    hide IsFixed;
    FixedNames("connection");
    FixedNames("proxy-connection");
    FixedNames("keep-alive");
  }

  lemma ForwardedHasNoConnection(h: Headers)
    ensures GetAll(Forwarded(h), "Connection") == [] && GetAll(Forwarded(h), "Proxy-Connection") == []
  {
    FixedMembers();
    LowerNames();
    hide IsFixed, Lower;
  }

  lemma VerdictOfCommands()
    ensures Verdict(Readable("close")) == Some(false)
    ensures Verdict(Readable("keep-alive")) == Some(true)
  {
    LowerNames();
    NoCommaNoSplit("keep-alive");
    assert "keep-alive" in SplitComma("keep-alive");
    assert Trim("keep-alive") == "keep-alive";
  }

  /** After clearing and setting, the connection header says exactly what was set, for every version, every
      header map and either kind of check. */
  lemma SetThenCheck(version: Version, h: Headers, keepAlive: bool, checkProxy: bool)
    ensures KeepsAlive(version, WithKeepAlive(version, Forwarded(h), keepAlive), checkProxy) == keepAlive
  {
    LowerNames();
    ForwardedHasNoConnection(h);
    VerdictOfCommands();
    var g := WithKeepAlive(version, Forwarded(h), keepAlive);
    if keepAlive != KeepsByDefault(version) {
      var v := Readable(if keepAlive then "keep-alive" else "close");
      assert GetAll(g, "Connection") == [v];
      assert KeepAliveVal([v]) == Some(keepAlive);
      assert GetAll(g, "Proxy-Connection") == [];
    }
  }

  /** Clearing twice is clearing once. */
  lemma ClearIdempotent(h: Headers)
    ensures Forwarded(Forwarded(h)) == Forwarded(h)
  {
    ForwardedHasNoConnection(h);
  }

  /** The commands a proxy sets name no header beyond the fixed ones. */
  lemma CommandsListNothing(name: string)
    ensures !ListsName(Readable("close"), name)
    ensures ListsName(Readable("keep-alive"), name) ==> name == "keep-alive"
  {
    LowerNames();
    NoCommaNoSplit("keep-alive");
    assert Trim("keep-alive") == "keep-alive";
  }

  /** Clearing undoes setting: what a proxy says about its own connection is not forwarded further. */
  lemma ClearUndoesSet(version: Version, h: Headers, keepAlive: bool)
    ensures Forwarded(WithKeepAlive(version, Forwarded(h), keepAlive)) == Forwarded(h)
  {
    LowerNames();
    FixedMembers();
    hide IsFixed, Lower;
    ForwardedHasNoConnection(h);
    ClearIdempotent(h);
    if keepAlive != KeepsByDefault(version) {
      var g := WithKeepAlive(version, Forwarded(h), keepAlive);
      var v := Readable(if keepAlive then "keep-alive" else "close");
      assert GetAll(g, "Connection") == [v] && GetAll(g, "Proxy-Connection") == [];
      forall name
        ensures IsHop(g, name) <==> IsFixed(name)
      {
        CommandsListNothing(name);
        hide ListsName;
        assert SomeListsName([v], name) ==> ListsName(v, name);
        assert !SomeListsName([], name);
      }
      hide IsHop;
      OnlyHopAdded(Forwarded(h), g, v);
    }
  }

  lemma OnlyHopAdded(h: Headers, g: Headers, v: Value)
    requires g == h["connection" := [v]] && IsFixed("connection")
    requires forall name :: IsHop(g, name) <==> IsFixed(name)
    requires forall name | name in h :: !IsFixed(name)
    ensures Forwarded(g) == h
  {
    hide IsHop, IsFixed;
  }

  // ------------------------------------------------------------------ the header map object

  class HeaderMap {
    var entries: Headers

    function Get(name: string): seq<Value>
      reads this
    {
      GetAll(entries, name)
    }

    /** Removes every value of a name; says whether there was one. */
    method Remove(name: string) returns (removed: bool)
      modifies this
      ensures removed <==> Lower(name) in old(entries)
      ensures entries == old(entries) - {Lower(name)}
    {
      removed := Lower(name) in entries;
      entries := entries - {Lower(name)};
    }

    /** Replaces all values of a name by one. */
    method Insert(name: string, value: Value)
      modifies this
      ensures entries == old(entries)[Lower(name) := [value]]
    {
      entries := entries[Lower(name) := [value]];
    }

    /** Removes a name until no value of it is left. */
    method RemoveAll(name: string)
      modifies this
      ensures entries == old(entries) - {Lower(name)}
    {
      var removed := true;
      while removed
        invariant entries == old(entries) || entries == old(entries) - {Lower(name)}
        invariant !removed ==> entries == old(entries) - {Lower(name)}
        decreases removed, Lower(name) in entries
      {
        removed := Remove(name);
      }
    }

    /** One of the two removal loops. */
    method RemoveEach(names: seq<string>)
      modifies this
      ensures entries == old(entries) - LowerSet(names)
    {
      hide Lower;
      for i := 0 to |names|
        invariant entries == old(entries) - LowerSet(names[..i])
      {
        RemoveAll(names[i]);
        LowerSetSnoc(names, i);
      }
      assert names[..|names|] == names;
    }

    method ClearHopHeaders()
      modifies this
      ensures entries == Forwarded(old(entries))
      ensures forall name :: name in entries <==>
        && name in old(entries) && name !in NEVER_FORWARDED
        && !Mentioned(ValuesOf(old(entries), "connection"), name)
        && !Mentioned(ValuesOf(old(entries), "proxy-connection"), name)
    {
      // Headers named by Connection and Proxy-Connection
      var own := GetExtraHeaders(Get("Connection"));
      var proxy := GetExtraHeaders(Get("Proxy-Connection"));
      ExtraIsHop(entries, own, proxy);
      hide IsHop, LowerSet, GetAll;
      RemoveEach(own + proxy);
      RemoveEach(HOP_BY_HOP_HEADERS);
      assert entries == Forwarded(old(entries));
      forall name
        ensures name in Forwarded(old(entries)) <==>
          && name in old(entries) && name !in NEVER_FORWARDED
          && !Mentioned(ValuesOf(old(entries), "connection"), name)
          && !Mentioned(ValuesOf(old(entries), "proxy-connection"), name)
      {
        hide *;
        ForwardedExact(old(entries), name);
      }
    }

    method SetConnKeepAlive(version: Version, keepAlive: bool)
      modifies this
      ensures entries == WithKeepAlive(version, old(entries), keepAlive)
    {
      match version {
        case Http09 =>
          if keepAlive { Insert("Connection", Readable("keep-alive")); }
        case Http10 =>
          if keepAlive { Insert("Connection", Readable("keep-alive")); }
        case _ =>
          if !keepAlive { Insert("Connection", Readable("close")); }
      }
    }

    method CheckKeepAlive(version: Version, checkProxy: bool) returns (connKeepAlive: bool)
      ensures connKeepAlive == KeepsAlive(version, entries, checkProxy)
    {
      connKeepAlive := !(version == Http09 || version == Http10);
      if checkProxy {
        var b := GetKeepAliveVal(Get("Proxy-Connection"));
        if b.Some? {
          connKeepAlive := b.value;
        }
      }
      // Asked last, so that it has the last word
      var b := GetKeepAliveVal(Get("Connection"));
      if b.Some? {
        connKeepAlive := b.value;
      }
    }
  }

  lemma LowerSetSnoc(names: seq<string>, i: nat)
    requires i < |names|
    ensures LowerSet(names[..i + 1]) == LowerSet(names[..i]) + {Lower(names[i])}
  {
    hide Lower;
    assert names[..i + 1] == names[..i] + [names[i]];
  }

  lemma ExtraIsHop(h: Headers, own: seq<string>, proxy: seq<string>)
    requires forall name :: name in LowerSet(own) <==> SomeListsName(GetAll(h, "Connection"), name)
    requires forall name :: name in LowerSet(proxy) <==> SomeListsName(GetAll(h, "Proxy-Connection"), name)
    ensures forall name :: IsHop(h, name) <==> name in LowerSet(own + proxy) || name in LowerSet(HOP_BY_HOP_HEADERS)
  {
    hide SomeListsName, GetAll;
    assert LowerSet(own + proxy) == LowerSet(own) + LowerSet(proxy);
  }

  method TrimEach(parts: seq<string>) returns (names: seq<string>)
    ensures names == Trimmed(parts)
  {
    names := [];
    for j := 0 to |parts|
      invariant names == Trimmed(parts[..j])
    {
      assert parts[..j + 1][..j] == parts[..j];
      names := names + [Trim(parts[j])];
    }
    assert parts[..|parts|] == parts;
  }

  method GetExtraHeaders(values: seq<Value>) returns (extra: seq<string>)
    ensures forall name :: name in LowerSet(extra) <==> SomeListsName(values, name)
    ensures forall name :: name in LowerSet(extra) <==> Mentioned(values, name)
  {
    extra := [];
    for i := 0 to |values|
      invariant forall name :: name in LowerSet(extra) <==> SomeListsName(values[..i], name)
    {
      ghost var before := extra;
      if ListsNames(values[i]) {
        var names := TrimEach(SplitComma(values[i].text));
        extra := extra + names;
      } else {
        assert extra == before + [];
      }
      ListedByNext(values, i, before, extra);
    }
    assert values[..|values|] == values;
    forall name
      ensures SomeListsName(values, name) <==> Mentioned(values, name)
    {
      hide *;
      MentionedIs(values, name);
    }
  }

  function Trimmed(parts: seq<string>): (trimmed: seq<string>)
    ensures |trimmed| == |parts|
  {
    if parts == [] then [] else Trimmed(parts[..|parts| - 1]) + [Trim(parts[|parts| - 1])]
  }

  lemma NamedInSnoc(parts: seq<string>, name: string)
    requires parts != []
    ensures NamedIn(parts, name) <==> NamedIn(parts[..|parts| - 1], name) || Lower(Trim(parts[|parts| - 1])) == name
  {
    hide Trim, Lower;
    var n := |parts| - 1;
    assert forall p :: p in parts <==> p in parts[..n] || p == parts[n] by {
      assert parts == parts[..n] + [parts[n]];
    }
  }

  lemma {:induction false} TrimmedNames(parts: seq<string>, name: string)
    ensures name in LowerSet(Trimmed(parts)) <==> NamedIn(parts, name)
  {
    if parts != [] {
      var n := |parts| - 1;
      var all := Trimmed(parts);
      assert all[..n] == Trimmed(parts[..n]) && all[n] == Trim(parts[n]);
      assert all[..n + 1] == all;
      hide Trim, Lower, LowerSet, NamedIn, Trimmed;
      TrimmedNames(parts[..n], name);
      NamedInSnoc(parts, name);
      LowerSetSnoc(all, n);
    }
  }

  lemma ListedByNext(values: seq<Value>, i: nat, before: seq<string>, after: seq<string>)
    requires i < |values|
    requires forall name :: name in LowerSet(before) <==> SomeListsName(values[..i], name)
    requires after == before + if ListsNames(values[i]) then Trimmed(SplitComma(values[i].text)) else []
    ensures forall name :: name in LowerSet(after) <==> SomeListsName(values[..i + 1], name)
  {
    forall name
      ensures name in LowerSet(after) <==> SomeListsName(values[..i + 1], name)
    {
      assert SomeListsName(values[..i + 1], name) <==>
        SomeListsName(values[..i], name) || ListsName(values[i], name)
      by {
        hide ListsName;
        var longer := values[..i + 1];
        assert longer[i] == values[i];
        assert forall k | 0 <= k < i :: longer[k] == values[..i][k];
      }
      if ListsNames(values[i]) {
        TrimmedNames(SplitComma(values[i].text), name);
      }
      hide SomeListsName, SplitComma, Trimmed;
    }
  }

  method GetKeepAliveVal(values: seq<Value>) returns (connKeepAlive: Option<bool>)
    ensures connKeepAlive == KeepAliveVal(values)
  {
    connKeepAlive := None;
    for i := 0 to |values|
      invariant connKeepAlive == KeepAliveVal(values[..i])
    {
      assert values[..i + 1][..i] == values[..i];
      if values[i].Readable? {
        var value := values[i].text;
        if SameText(value, "close") {
          connKeepAlive := Some(false);
        } else {
          var parts := SplitComma(value);
          var found := false;
          for j := 0 to |parts|
            invariant !found && forall k | 0 <= k < j :: !SameText(Trim(parts[k]), "keep-alive")
          {
            if SameText(Trim(parts[j]), "keep-alive") {
              connKeepAlive := Some(true);
              found := true;
              break;
            }
          }
        }
      }
    }
    assert values[..|values|] == values;
  }

  // ------------------------------------------------------------------ one proxied exchange

  /** The header work of one request and its response. The client is told to keep its connection exactly when
      it asked for that and the server keeps its own; the server is asked for what the client asked. */
  method Exchange(version: Version, request: HeaderMap, serverVersion: Version, response: HeaderMap)
    requires request != response
    modifies request, response
    ensures request.entries ==
      WithKeepAlive(version, Forwarded(old(request.entries)), KeepsAlive(version, old(request.entries), true))
    ensures forall proxy ::
      KeepsAlive(version, request.entries, proxy) == KeepsAlive(version, old(request.entries), true)
    ensures forall proxy :: KeepsAlive(version, response.entries, proxy) <==>
      KeepsAlive(version, old(request.entries), true) && KeepsAlive(serverVersion, old(response.entries), false)
    ensures Forwarded(response.entries) == Forwarded(old(response.entries))
  {
    ghost var asked, answered := request.entries, response.entries;
    var connKeepAlive := request.CheckKeepAlive(version, true);
    request.ClearHopHeaders();
    request.SetConnKeepAlive(version, connKeepAlive);
    var serverKeeps := response.CheckKeepAlive(serverVersion, false);
    var resKeepAlive := connKeepAlive && serverKeeps;
    response.ClearHopHeaders();
    response.SetConnKeepAlive(version, resKeepAlive);
    forall proxy: bool
      ensures KeepsAlive(version, request.entries, proxy) == connKeepAlive
      ensures KeepsAlive(version, response.entries, proxy) == resKeepAlive
    {
      SetThenCheck(version, asked, connKeepAlive, proxy);
      SetThenCheck(version, answered, resKeepAlive, proxy);
    }
    ClearUndoesSet(version, answered, resKeepAlive);
  }
}
