/** Host and address rules of `acl/mod.rs`. */
module Acl {
  import opened Prelude
  import opened Net
  import opened DomainNames
  import opened SubDomains
  import opened HostPatterns

  /** Removes every dot at the end of a name. */
  function TrimDots(s: string): (r: string)
    ensures r == "" || r[|r| - 1] != '.'
    ensures r <= s
  {
    if s != "" && s[|s| - 1] == '.' then TrimDots(s[..|s| - 1]) else s
  }

  predicate AllDots(s: string) {
    forall i | 0 <= i < |s| :: s[i] == '.'
  }

  /** Only dots are removed. */
  lemma {:induction false} TrimDotsExact(s: string)
    ensures AllDots(s[|TrimDots(s)|..])
    ensures s == TrimDots(s) + s[|TrimDots(s)|..]
  {
    if s != "" && s[|s| - 1] == '.' {
      TrimDotsExact(s[..|s| - 1]);
      assert s == s[..|s| - 1] + ".";
    }
  }

  // ------------------------------------------------------------------ rewriting expressions

  /** Whether the rewritten rule matches a host: as a subtree of names, or as one name. */
  predicate RewrittenMatches(shape: Shape, host: string) {
    var name := Lower(TrimDots(shape.name));
    if shape.head == Whole then host == name else IsSubdomainOf(host, name)
  }

  predicate EndsWithDot(s: string) {
    s != "" && s[|s| - 1] == '.'
  }

  /** The heads that let a host start with the name. */
  predicate AtBoundary(head: Head) {
    head == Group || head == PlainGroup || head == Whole
  }

  /** The shapes whose rewriting keeps the meaning. */
  predicate Exact(shape: Shape) {
    shape.anchored && AtBoundary(shape.head) && !EndsWithDot(shape.name)
  }

  /** Hosts reach the rules with their final dots removed. */
  ghost predicate SameDecision(shape: Shape, host: string) {
    EndsWithDot(host) || (RewrittenMatches(shape, host) <==> Search(Meaning(shape), host))
  }

  lemma {:induction false} NameTrimmed(name: string, afterWord: bool)
    requires IsName(name, afterWord) && name != ""
    ensures TrimDots(name) == if EndsWithDot(name) then name[..|name| - 1] else name
    ensures TrimDots(name) == "" ==> afterWord
    ensures TrimDots(name) != "" ==> WordChar(TrimDots(name)[|TrimDots(name)| - 1])
  {
    if |name| == 1 {
      assert name[..0] == "";
    } else {
      NameTrimmed(name[1..], name[0] != '.');
      assert name == [name[0]] + name[1..];
      if EndsWithDot(name) {
        assert name[..|name| - 1][1..] == name[1..][..|name| - 2];
      }
    }
  }

  /** The name a rewritten rule stores: not empty, and ending with a lower-case word character. */
  lemma StoredName(shape: Shape)
    requires WellFormed(shape)
    ensures var name, stored := Lower(shape.name), Lower(TrimDots(shape.name));
      && stored != "" && WordChar(stored[|stored| - 1])
      && name == stored + if EndsWithDot(shape.name) then "." else ""
  {
    NameTrimmed(shape.name, false);
  }

  lemma NameKept(shape: Shape)
    requires WellFormed(shape)
    ensures !EndsWithDot(shape.name) ==> TrimDots(shape.name) == shape.name
  {
    NameTrimmed(shape.name, false);
  }

  /** With `$` at the end, the rewritten rule matches every host the expression matches. */
  lemma AnchoredRewriteWidens(shape: Shape, host: string)
    requires WellFormed(shape) && shape.anchored && !EndsWithDot(host)
    requires Search(Meaning(shape), host)
    ensures RewrittenMatches(shape, host)
  {
    hide Search, Meaning, Lower, TrimDots, WellFormed;
    StoredName(shape);
    SearchFindsName(shape, host);
    var name := Lower(shape.name);
    var k :| 0 <= k <= |host| && Found(shape, host, k);
    assert host[k..] == name;
    assert host[|host| - 1] == name[|name| - 1];
    NameKept(shape);
    SuffixIsSubdomain(host, name, k);
  }

  lemma SuffixIsSubdomain(host: string, name: string, k: nat)
    requires k <= |host| && host[k..] == name
    ensures k == 0 ==> host == name
    ensures k == 0 || host[k - 1] == '.' ==> IsSubdomainOf(host, name)
  {
    if k == 0 {
      assert host == name;
    } else {
      assert host[k - 1..] == [host[k - 1]] + host[k..];
    }
  }

  lemma SubdomainOccurs(host: string, name: string) returns (k: nat)
    requires host == name || IsSubdomainOf(host, name)
    ensures OccursAt(host, name, k, true) && (k == 0 || host[k - 1] == '.')
    ensures host == name ==> k == 0
  {
    k := |host| - |name|;
    if host != name {
      var tail := host[k - 1..];
      assert tail == "." + name;
      assert host[k..k + |name|] == tail[1..];
      assert host[k - 1] == tail[0];
    }
  }

  /** Without `$`, a rule whose name may start a host or follows a boundary only loses hosts. */
  lemma RewriteNarrows(shape: Shape, host: string)
    requires WellFormed(shape) && AtBoundary(shape.head) && !EndsWithDot(shape.name)
    requires RewrittenMatches(shape, host)
    ensures Search(Meaning(shape), host)
  {
    NameTrimmed(shape.name, false);
    SearchFindsName(shape, host);
    hide Search, Meaning, Lower, TrimDots, WellFormed, IsSubdomainOf, EndsWithDot;
    var k := SubdomainOccurs(host, Lower(shape.name));
    assert OccursAt(host, Lower(shape.name), k, shape.anchored);
    assert Found(shape, host, k);
  }

  lemma UnanchoredSearch(shape: Shape, rest: string)
    requires !shape.anchored && AtBoundary(shape.head)
    ensures Search(Meaning(shape), Lower(shape.name) + rest)
  {
    var host := Lower(shape.name) + rest;
    SearchFindsName(shape, host);
    assert host[0..|Lower(shape.name)|] == Lower(shape.name);
    assert Found(shape, host, 0);
  }

  /** Without `$` the expression goes on matching past the name; the rewritten rule does not. */
  lemma UnanchoredDiffers(shape: Shape) returns (host: string)
    requires WellFormed(shape) && !shape.anchored && AtBoundary(shape.head)
    ensures !SameDecision(shape, host)
  {
    StoredName(shape);
    hide Search, Lower, TrimDots, Meaning;
    var stored := Lower(TrimDots(shape.name));
    var c := if stored[|stored| - 1] == 'a' then 'b' else 'a';
    host := Lower(shape.name) + [c];
    UnanchoredSearch(shape, [c]);
    NotBelow(host, stored);
  }

  /** The bare name is matched by the rewritten rule, but not by an expression that wants a dot before or
      after it. */
  lemma BareNameDiffers(shape: Shape) returns (host: string)
    requires WellFormed(shape)
    requires !AtBoundary(shape.head) || (shape.anchored && EndsWithDot(shape.name))
    ensures !SameDecision(shape, host)
  {
    StoredName(shape);
    host := Lower(TrimDots(shape.name));
    SearchFindsName(shape, host);
    hide Search, Lower, TrimDots;
  }

  /** A host on which an inexact rewriting and its expression differ. */
  lemma Differs(shape: Shape) returns (host: string)
    requires WellFormed(shape) && !Exact(shape)
    ensures !SameDecision(shape, host)
  {
    hide SameDecision;
    if AtBoundary(shape.head) && !shape.anchored {
      host := UnanchoredDiffers(shape);
    } else {
      host := BareNameDiffers(shape);
    }
  }

  lemma NotBelow(host: string, name: string)
    requires host != "" && name != "" && host[|host| - 1] != name[|name| - 1]
    ensures host != name && !IsSubdomainOf(host, name)
  {
    EndsWithInit(host, "." + name);
  }

  /** A recognised rule decides every host as its expression does exactly when it is a whole-name or
      boundary-group rule that ends with `$` and whose name has no final dot. */
  lemma RewriteExactIff(shape: Shape)
    requires WellFormed(shape)
    ensures (forall host :: SameDecision(shape, host)) <==> Exact(shape)
  {
    if Exact(shape) {
      forall host
        ensures SameDecision(shape, host)
      {
        if !EndsWithDot(host) {
          if Search(Meaning(shape), host) { AnchoredRewriteWidens(shape, host); }
          if RewrittenMatches(shape, host) { RewriteNarrows(shape, host); }
        }
      }
    } else {
      var host := Differs(shape);
    }
  }

  lemma ExactTexts(shape: Shape)
    ensures AtBoundary(shape.head) <==> HeadText(shape.head) in {"(^|\\.)", "(?:^|\\.)", "^"}
  {
    var text := HeadText(shape.head);
    assert |text| == 1 || |text| == 2 || |text| == 5 || |text| == 6 || |text| == 8;
    assert |text| == 6 ==> text[0] == (if shape.head == Group then '(' else '^');
  }

  /** The same told by the text of the rule: the rewriting is exact for `(^|\.)name$`, `(?:^|\.)name$` and `^name$`
      with no dot at the end of the name, and for no other recognised rule. */
  lemma RewriteExactTexts(text: string, name: string, anchored: bool)
    requires text in HEAD_TEXTS && name != "" && IsName(name, false)
    ensures var found := Recognise(text + Escaped(name) + if anchored then "$" else "");
      && found.Some?
      && ((forall host :: SameDecision(found.value, host)) <==>
        text in {"(^|\\.)", "(?:^|\\.)", "^"} && anchored && name[|name| - 1] != '.')
  {
    var head := TextOfHead(text);
    var shape := Shape(head, name, anchored);
    ExactTexts(shape);
    hide HeadText, Recognise, SameDecision, IsName, Escaped, AtBoundary;
    RecogniseExact(Spelled(shape), shape);
    RewriteExactIff(shape);
  }

  // ------------------------------------------------------------------ host rules

  /** A host line of the rule file: `||name`, `|name`, or an expression. */
  datatype Line = TreeLine(name: string) | SetLine(name: string) | RegexLine(rule: string)

  /** What the lines mean taken one by one; `written` says what an expression means as it is written. */
  predicate LineMatches(written: Matcher, line: Line, host: string) {
    match line
    case TreeLine(name) => IsSubdomainOf(host, Lower(TrimDots(name)))
    case SetLine(name) => host == Lower(TrimDots(name))
    case RegexLine(rule) => written(rule, host)
  }

  predicate SomeLineMatches(written: Matcher, lines: seq<Line>, host: string) {
    exists i :: 0 <= i < |lines| && LineMatches(written, lines[i], host)
  }

  /** The library, given the lower-cased text, says of the host what the expression means as it is written. */
  predicate LoweringKeeps(search: Matcher, written: Matcher, line: Line, host: string) {
    line.RegexLine? ==> (written(line.rule, host) <==> search(Lower(line.rule), host))
  }

  /** The library reads the recognised rules as their meaning. */
  ghost predicate ReadsShapes(search: Matcher) {
    forall shape, host | WellFormed(shape) :: search(Lower(Spelled(shape)), host) <==> Search(Meaning(shape), host)
  }

  /** Where a line is stored. */
  datatype Stored = InTree(name: string) | InSet(name: string) | InRegex(rule: string)

  function Store(line: Line): Stored {
    match line
    case TreeLine(name) => InTree(TrimDots(name))
    case SetLine(name) => InSet(Lower(TrimDots(name)))
    case RegexLine(rule) =>
      match Recognise(rule)
      case Some(shape) =>
        if shape.head == Whole then InSet(Lower(TrimDots(shape.name))) else InTree(TrimDots(shape.name))
      case None => InRegex(Lower(rule))
  }

  predicate StoredMatches(search: Matcher, stored: Stored, host: string) {
    match stored
    case InTree(name) => IsSubdomainOf(host, Lower(name))
    case InSet(name) => host == name
    case InRegex(rule) => search(rule, host)
  }

  /** Every recognised expression among the lines is one whose rewriting is exact. */
  predicate AllExact(lines: seq<Line>) {
    forall i | 0 <= i < |lines| && lines[i].RegexLine? && Recognise(lines[i].rule).Some? ::
      Exact(Recognise(lines[i].rule).value)
  }

  /** Where lower-casing keeps what an expression says of a host, storing a line keeps what it says, as long as
      a recognised expression is one of those whose rewriting is exact. */
  lemma StoreKeepsMeaning(search: Matcher, written: Matcher, line: Line, host: string)
    requires ReadsShapes(search) && !EndsWithDot(host) && LoweringKeeps(search, written, line, host)
    requires line.RegexLine? && Recognise(line.rule).Some? ==> Exact(Recognise(line.rule).value)
    ensures StoredMatches(search, Store(line), host) <==> LineMatches(written, line, host)
  {
    if line.RegexLine? && Recognise(line.rule).Some? {
      var shape := Recognise(line.rule).value;
      RewriteExactIff(shape);
      assert SameDecision(shape, host);
      assert search(Lower(Spelled(shape)), host) <==> Search(Meaning(shape), host);
    }
  }

  predicate AllKept(search: Matcher, written: Matcher, lines: seq<Line>, host: string) {
    forall i | 0 <= i < |lines| :: LoweringKeeps(search, written, lines[i], host)
  }

  predicate SomeStoredMatches(search: Matcher, lines: seq<Line>, host: string) {
    exists i :: 0 <= i < |lines| && StoredMatches(search, Store(lines[i]), host)
  }

  /** Where every rewriting is exact and lower-casing keeps what the expressions say of the host, some stored
      line matches the host exactly when some line of the file does as written. */
  lemma StoredLinesKeepMeaning(search: Matcher, written: Matcher, lines: seq<Line>, host: string)
    requires ReadsShapes(search) && !EndsWithDot(host)
    requires AllExact(lines) && AllKept(search, written, lines, host)
    ensures SomeStoredMatches(search, lines, host) <==> SomeLineMatches(written, lines, host)
  {
    forall i | 0 <= i < |lines|
      ensures StoredMatches(search, Store(lines[i]), host) <==> LineMatches(written, lines[i], host)
    {
      assert LoweringKeeps(search, written, lines[i], host);
      hide LoweringKeeps, StoredMatches, LineMatches, ReadsShapes, Recognise;
      StoreKeepsMeaning(search, written, lines[i], host);
    }
  }

  predicate IsStored(lines: seq<Line>, stored: Stored) {
    exists i :: 0 <= i < |lines| && Store(lines[i]) == stored
  }

  class ParsingRules {
    var rulesRegex: seq<string>
    var rulesSet: set<string>
    const rulesTree: SubDomainsTree
    /** The lines added so far. */
    ghost var lines: seq<Line>

    ghost predicate Valid()
      reads this, rulesTree
    {
      && rulesTree.Valid()
      && (forall r :: r in rulesRegex <==> IsStored(lines, InRegex(r)))
      && (forall n :: n in rulesSet <==> IsStored(lines, InSet(n)))
      && (forall n :: n in rulesTree.rules <==> IsStored(lines, InTree(n)))
    }

    constructor ()
      ensures Valid() && lines == [] && fresh(rulesTree)
    {
      rulesRegex := [];
      rulesSet := {};
      rulesTree := new SubDomainsTree();
      lines := [];
    }

    method Add(line: Line)
      requires Valid()
      modifies this, rulesTree
      ensures Valid() && lines == old(lines) + [line]
    {
      match line {
        case TreeLine(name) =>
          AddTreeRule(name);
          Extend(line);
        case SetLine(name) =>
          AddSetRule(name);
          Extend(line);
        case RegexLine(rule) => AddRegexRule(rule);
      }
    }

    method AddTreeRule(name: string)
      requires rulesTree.Valid()
      modifies rulesTree
      ensures rulesTree.Valid() && rulesTree.rules == old(rulesTree.rules) + [TrimDots(name)]
    {
      rulesTree.Insert(TrimDots(name));
    }

    method AddSetRule(name: string)
      modifies this`rulesSet
      ensures rulesSet == old(rulesSet) + {Lower(TrimDots(name))}
    {
      rulesSet := rulesSet + {Lower(TrimDots(name))};
    }

    method AddRegexRule(rule: string)
      requires Valid()
      modifies this, rulesTree
      ensures Valid() && lines == old(lines) + [RegexLine(rule)]
    {
      var shape := Recognise(rule);
      if shape.Some? {
        if shape.value.head == Whole {
          AddSetRule(shape.value.name);
        } else {
          AddTreeRule(shape.value.name);
        }
      } else {
        rulesRegex := rulesRegex + [Lower(rule)];
      }
      Extend(RegexLine(rule));
    }

    ghost method Extend(line: Line)
      modifies this`lines
      ensures lines == old(lines) + [line]
      ensures forall s :: IsStored(lines, s) <==> IsStored(old(lines), s) || Store(line) == s
    {
      lines := lines + [line];
      forall s
        ensures IsStored(lines, s) <==> IsStored(old(lines), s) || Store(line) == s
      {
        assert lines[|lines| - 1] == line;
        assert forall i | 0 <= i < |old(lines)| :: lines[i] == old(lines)[i];
      }
    }

    /** The whole lookup decides a host as some stored line does. */
    method CheckHostMatched(search: Matcher, host: string) returns (matched: bool)
      requires Valid()
      ensures matched <==> SomeStoredMatches(search, lines, TrimDots(host))
    {
      var name := TrimDots(host);
      var inTree := rulesTree.Contains(name);
      var inRegex := exists r <- rulesRegex :: search(r, name);
      matched := name in rulesSet || inTree || inRegex;
      StoredDecides(search, name);
    }

    lemma StoredDecides(search: Matcher, name: string)
      requires Valid()
      ensures SomeStoredMatches(search, lines, name) <==>
        || name in rulesSet
        || (exists i :: 0 <= i < |rulesTree.rules| && IsSubdomainOf(name, Lower(rulesTree.rules[i])))
        || (exists r <- rulesRegex :: search(r, name))
    {
      if i :| 0 <= i < |lines| && StoredMatches(search, Store(lines[i]), name) {
        match Store(lines[i]) {
          case InTree(n) =>
            assert IsStored(lines, InTree(n));
            var j :| 0 <= j < |rulesTree.rules| && rulesTree.rules[j] == n;
          case InSet(n) => assert IsStored(lines, InSet(n));
          case InRegex(r) => assert IsStored(lines, InRegex(r));
        }
      }
      if name in rulesSet {
        var i :| 0 <= i < |lines| && Store(lines[i]) == InSet(name);
      }
      if j :| 0 <= j < |rulesTree.rules| && IsSubdomainOf(name, Lower(rulesTree.rules[j])) {
        assert rulesTree.rules[j] in rulesTree.rules;
        var i :| 0 <= i < |lines| && Store(lines[i]) == InTree(rulesTree.rules[j]);
      }
      if r :| r in rulesRegex && search(r, name) {
        var i :| 0 <= i < |lines| && Store(lines[i]) == InRegex(r);
      }
    }
  }

  // ------------------------------------------------------------------ address rules

  datatype Mode = BlackList | WhiteList

  /** The address part of a rule list. */
  datatype IpRules = IpRules(ipv4: set<u32>, ipv6: set<u128>)

  predicate CheckIpMatched(rules: IpRules, ip: IpAddr) {
    match ip
    case V4(a) => a in rules.ipv4 || ToIpv6Mapped(a) in rules.ipv6
    case V6(a) => a in rules.ipv6 || (ToIpv4Mapped(a).Some? && ToIpv4Mapped(a).value in rules.ipv4)
  }

  datatype AccessControl = AccessControl(mode: Mode, blackList: IpRules, whiteList: IpRules) {
    predicate CheckIpInProxyList(ip: IpAddr) {
      match mode
      case BlackList => !CheckIpMatched(blackList, ip)
      case WhiteList => CheckIpMatched(whiteList, ip)
    }

    predicate CheckClientBlocked(ip: IpAddr) {
      match mode
      case BlackList => CheckIpMatched(blackList, ip)
      case WhiteList => !CheckIpMatched(whiteList, ip)
    }

    predicate IsDefaultInProxyList() {
      mode == BlackList
    }
  }

  /** The IPv6 address that stands for an address: IPv4 addresses are carried in `::ffff:0:0/96`. */
  function Wide(ip: IpAddr): u128 {
    match ip
    case V4(a) => 0xFFFF_0000_0000 + a
    case V6(a) => a
  }

  /** What a rule list lists, each address as its IPv6 form. */
  function Hosts(rules: IpRules): set<u128> {
    rules.ipv6 + set a | a in rules.ipv4 :: Wide(V4(a))
  }

  lemma MatchedByHosts(rules: IpRules, ip: IpAddr)
    ensures CheckIpMatched(rules, ip) <==> Wide(ip) in Hosts(rules)
  {
    var carried := set a | a in rules.ipv4 :: Wide(V4(a));
    match ip
    case V4(a) =>
      assert a in rules.ipv4 ==> Wide(V4(a)) in carried;
    case V6(a) =>
      if 0xFFFF_0000_0000 <= a <= 0xFFFF_FFFF_FFFF {
        assert a - 0xFFFF_0000_0000 in rules.ipv4 ==> Wide(V4(a - 0xFFFF_0000_0000)) in carried;
      }
  }

  /** In black-list mode an address goes direct exactly if the black list lists it, in white-list mode exactly if the
      white list does not; an IPv4 address and the IPv6 address that carries it are one address. Clients are blocked
      by the same rule. Hosts no rule decides are proxied in black-list mode only. */
  lemma IpDecidedByHosts(acl: AccessControl, ip: IpAddr)
    ensures acl.mode.BlackList? ==>
      && (acl.CheckIpInProxyList(ip) <==> Wide(ip) !in Hosts(acl.blackList))
      && (acl.CheckClientBlocked(ip) <==> Wide(ip) in Hosts(acl.blackList))
      && acl.IsDefaultInProxyList()
    ensures acl.mode.WhiteList? ==>
      && (acl.CheckIpInProxyList(ip) <==> Wide(ip) in Hosts(acl.whiteList))
      && (acl.CheckClientBlocked(ip) <==> Wide(ip) !in Hosts(acl.whiteList))
      && !acl.IsDefaultInProxyList()
  {
    MatchedByHosts(acl.blackList, ip);
    MatchedByHosts(acl.whiteList, ip);
  }

  /** The same by the two sets of the list: an address is listed as itself, or as the one it carries or that
      carries it. */
  lemma HostsBySets(rules: IpRules, ip: IpAddr)
    ensures Wide(ip) in Hosts(rules) <==>
      match ip
      case V4(a) => a in rules.ipv4 || 0xFFFF_0000_0000 + a in rules.ipv6
      case V6(a) =>
        a in rules.ipv6 || (0xFFFF_0000_0000 <= a <= 0xFFFF_FFFF_FFFF && a - 0xFFFF_0000_0000 in rules.ipv4)
  {
    MatchedByHosts(rules, ip);
  }

  /** An IPv4 address and the IPv6 address that carries it are decided alike. */
  lemma MappedDecidedAlike(acl: AccessControl, a: u32)
    ensures acl.CheckIpInProxyList(V4(a)) == acl.CheckIpInProxyList(V6(ToIpv6Mapped(a)))
    ensures acl.CheckClientBlocked(V4(a)) == acl.CheckClientBlocked(V6(ToIpv6Mapped(a)))
  {
    IpDecidedByHosts(acl, V4(a));
    IpDecidedByHosts(acl, V6(ToIpv6Mapped(a)));
  }
}
