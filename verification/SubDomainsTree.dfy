/** The pruning suffix tree of `sub_domains_tree.rs`. Nested hash maps own their values, so nodes are
    values and the tree is the field of one object. */
module SubDomains {
  import opened DomainNames

  datatype DomainPart = DomainPart(included: bool, children: map<string, DomainPart>)

  type Forest = map<string, DomainPart>

  /** Labels of a name, last label first; splitting never gives none. */
  type Path = p: seq<string> | p != [] witness [""]

  /** Entry of `part`, made if absent. */
  function Entry(m: Forest, part: string): DomainPart {
    if part in m then m[part] else DomainPart(false, map[])
  }

  /** Insertion of a list of labels, last label first. */
  function Inserted(m: Forest, path: Path): Forest
    decreases |path|
  {
    var entry := Entry(m, path[0]);
    if entry.included then m
    else if |path| == 1 then m[path[0] := DomainPart(true, map[])]
    else m[path[0] := DomainPart(false, Inserted(entry.children, path[1..]))]
  }

  /** Lookup of a list of labels, last label first. */
  predicate Covers(m: Forest, path: seq<string>)
    decreases |path|
  {
    path != [] && path[0] in m && (m[path[0]].included || Covers(m[path[0]].children, path[1..]))
  }

  /** Included nodes have no children and every leaf is included. */
  predicate Canonical(m: Forest) {
    forall part <- m :: CanonicalPart(m[part])
  }

  predicate CanonicalPart(p: DomainPart) {
    (p.included <==> p.children == map[]) && forall part <- p.children :: CanonicalPart(p.children[part])
  }

  function Built(rules: seq<Path>): Forest
  {
    if rules == [] then map[] else Inserted(Built(rules[..|rules| - 1]), rules[|rules| - 1])
  }

  // ------------------------------------------------------------------ matching

  /** Despite the early return and the clearing of subtrees, an insertion adds exactly the hosts below the
      inserted name. */
  lemma {:induction false} InsertAddsSubdomains(m: Forest, path: Path, host: seq<string>)
    ensures Covers(Inserted(m, path), host) <==> Covers(m, host) || path <= host
    decreases |path|
  {
    if host != [] && host[0] == path[0] && |path| > 1 {
      InsertAddsSubdomains(Entry(m, path[0]).children, path[1..], host[1..]);
      assert path <= host <==> path[1..] <= host[1..] by {
        assert path == [path[0]] + path[1..] && host == [host[0]] + host[1..];
      }
      if path[0] !in m {
        assert !Covers(map[], host[1..]);
      }
    }
  }

  /** Some rule has its labels last in `host`. */
  predicate AnySuffix(rules: seq<Path>, host: seq<string>) {
    exists i :: 0 <= i < |rules| && rules[i] <= host
  }

  /** After any insertions a host is matched exactly when some inserted name is a label suffix of it. */
  lemma {:induction false} MatchesInserted(rules: seq<Path>, host: seq<string>)
    ensures Covers(Built(rules), host) <==> AnySuffix(rules, host)
  {
    if rules != [] {
      var n := |rules| - 1;
      MatchesInserted(rules[..n], host);
      InsertAddsSubdomains(Built(rules[..n]), rules[n], host);
      assert forall i | 0 <= i < n :: rules[..n][i] == rules[i];
    }
  }

  // ------------------------------------------------------------------ shape

  lemma {:induction false} InsertKeepsCanonical(m: Forest, path: Path)
    requires Canonical(m)
    ensures Canonical(Inserted(m, path)) && Inserted(m, path) != map[]
    decreases |path|
  {
    var entry := Entry(m, path[0]);
    assert Canonical(entry.children);
    assert path[0] in Inserted(m, path);
    if !entry.included && |path| > 1 {
      InsertKeepsCanonical(entry.children, path[1..]);
    }
  }

  lemma {:induction false} BuiltCanonical(rules: seq<Path>)
    ensures Canonical(Built(rules))
    ensures Built(rules) == map[] <==> rules == []
  {
    if rules != [] {
      BuiltCanonical(rules[..|rules| - 1]);
      InsertKeepsCanonical(Built(rules[..|rules| - 1]), rules[|rules| - 1]);
    }
  }

  /** Some host a non-empty subtree matches. */
  lemma {:induction false} SomeMatch(p: DomainPart) returns (path: seq<string>)
    requires CanonicalPart(p) && !p.included
    ensures Covers(p.children, path)
    decreases p
  {
    var part :| part in p.children;
    if p.children[part].included {
      path := [part];
    } else {
      var rest := SomeMatch(p.children[part]);
      path := [part] + rest;
      assert path[1..] == rest;
    }
  }

  lemma SubtreeMatches(m: Forest, part: string, rest: seq<string>)
    ensures Covers(m, [part] + rest) <==> part in m && (m[part].included || Covers(m[part].children, rest))
  {
    assert ([part] + rest)[1..] == rest;
  }

  ghost predicate SameMatches(m: Forest, n: Forest) {
    forall path :: Covers(m, path) <==> Covers(n, path)
  }

  lemma SameKey(m: Forest, n: Forest, part: string)
    requires Canonical(m) && SameMatches(m, n) && part in m
    ensures part in n
    ensures m[part].included ==> n[part].included
  {
    var rest := [];
    if !m[part].included {
      rest := SomeMatch(m[part]);
    }
    SubtreeMatches(m, part, rest);
    SubtreeMatches(n, part, rest);
    assert Covers(m, [part] + rest);
  }

  lemma SameSubtree(m: Forest, n: Forest, part: string)
    requires SameMatches(m, n) && part in m && part in n && !m[part].included && !n[part].included
    ensures SameMatches(m[part].children, n[part].children)
  {
    forall rest
      ensures Covers(m[part].children, rest) <==> Covers(n[part].children, rest)
    {
      SubtreeMatches(m, part, rest);
      SubtreeMatches(n, part, rest);
      assert Covers(m, [part] + rest) <==> Covers(n, [part] + rest);
    }
  }

  /** Canonical trees that match the same hosts are equal. */
  lemma {:induction false} SameMatchesSamePart(p: DomainPart, q: DomainPart)
    requires CanonicalPart(p) && CanonicalPart(q) && p.included == q.included
    requires SameMatches(p.children, q.children)
    ensures p == q
    decreases p
  {
    var m, n := p.children, q.children;
    forall part
      ensures part in m <==> part in n
    {
      if part in m { SameKey(m, n, part); }
      if part in n { SameKey(n, m, part); }
    }
    assert m.Keys == n.Keys;
    forall part | part in m
      ensures m[part] == n[part]
    {
      SameKey(m, n, part);
      SameKey(n, m, part);
      if m[part].included {
        assert m[part].children == map[] == n[part].children;
      } else {
        SameSubtree(m, n, part);
      }
      SameMatchesSamePart(m[part], n[part]);
    }
  }

  lemma SameMatchesSameTree(m: Forest, n: Forest)
    requires Canonical(m) && Canonical(n) && SameMatches(m, n)
    ensures m == n
  {
    if m == map[] || n == map[] {
      if part :| part in m { SameKey(m, n, part); }
      if part :| part in n { SameKey(n, m, part); }
    } else {
      SameMatchesSamePart(DomainPart(false, m), DomainPart(false, n));
    }
  }

  /** Every rule of `rules` has a suffix among `others`. */
  predicate Within(rules: seq<Path>, others: seq<Path>) {
    forall i | 0 <= i < |rules| :: AnySuffix(others, rules[i])
  }

  lemma WithinMatches(rules: seq<Path>, others: seq<Path>, host: seq<string>)
    requires Within(rules, others) && AnySuffix(rules, host)
    ensures AnySuffix(others, host)
  {
    var i :| 0 <= i < |rules| && rules[i] <= host;
    assert AnySuffix(others, rules[i]);
    var j :| 0 <= j < |others| && others[j] <= rules[i];
    assert others[j] <= host;
  }

  lemma SameTreeWithin(rules: seq<Path>, others: seq<Path>)
    requires Built(rules) == Built(others)
    ensures Within(rules, others)
  {
    forall i | 0 <= i < |rules|
      ensures AnySuffix(others, rules[i])
    {
      MatchesInserted(rules, rules[i]);
      MatchesInserted(others, rules[i]);
      assert rules[i] <= rules[i];
    }
  }

  /** Two lists of rules build equal trees exactly when each rule of one has a suffix among the rules of
      the other, that is, when they match the same hosts. */
  lemma TreeDependsOnMatches(rules: seq<Path>, others: seq<Path>)
    ensures Built(rules) == Built(others) <==> Within(rules, others) && Within(others, rules)
  {
    if Built(rules) == Built(others) {
      SameTreeWithin(rules, others);
      SameTreeWithin(others, rules);
    }
    if Within(rules, others) && Within(others, rules) {
      hide Within, Built;
      BuiltCanonical(rules);
      BuiltCanonical(others);
      forall path
        ensures Covers(Built(rules), path) <==> Covers(Built(others), path)
      {
        MatchesInserted(rules, path);
        MatchesInserted(others, path);
        if AnySuffix(rules, path) { WithinMatches(rules, others, path); }
        if AnySuffix(others, path) { WithinMatches(others, rules, path); }
      }
      SameMatchesSameTree(Built(rules), Built(others));
    }
  }

  /** The order and repetition of insertions do not matter. */
  lemma InsertionOrderIrrelevant(rules: seq<Path>, others: seq<Path>)
    requires forall r :: r in rules <==> r in others
    ensures Built(rules) == Built(others)
  {
    forall i | 0 <= i < |rules| ensures AnySuffix(others, rules[i]) {
      assert rules[i] in others;
    }
    forall i | 0 <= i < |others| ensures AnySuffix(rules, others[i]) {
      assert others[i] in rules;
    }
    TreeDependsOnMatches(rules, others);
  }

  // ------------------------------------------------------------------ rules and hosts as text

  function Labels(rule: string): Path {
    RSplit(Lower(rule))
  }

  function AllLabels(rules: seq<string>): (paths: seq<Path>)
    ensures |paths| == |rules| && forall i | 0 <= i < |rules| :: paths[i] == Labels(rules[i])
  {
    seq(|rules|, i requires 0 <= i < |rules| => Labels(rules[i]))
  }

  /** The tree of a list of rules matches a host exactly when the host is one of the lower-cased rules or a
      subdomain of one. */
  lemma MatchesSubdomains(rules: seq<string>, host: string)
    ensures Covers(Built(AllLabels(rules)), RSplit(host)) <==>
      exists i :: 0 <= i < |rules| && IsSubdomainOf(host, Lower(rules[i]))
  {
    MatchesInserted(AllLabels(rules), RSplit(host));
    forall i | 0 <= i < |rules|
      ensures IsSubdomainOf(host, Lower(rules[i])) <==> AllLabels(rules)[i] <= RSplit(host)
    {
      SubdomainByLabels(host, Lower(rules[i]));
    }
  }

  // ------------------------------------------------------------------ the tree object

  /** A forest put back into the entries that were passed on the way down to it. */
  function PutBack(steps: seq<(Forest, string)>, m: Forest): Forest {
    if steps == [] then m
    else
      var (outer, part) := steps[|steps| - 1];
      PutBack(steps[..|steps| - 1], outer[part := DomainPart(false, m)])
  }

  lemma PutBackSnoc(steps: seq<(Forest, string)>, outer: Forest, part: string, m: Forest)
    ensures PutBack(steps + [(outer, part)], m) == PutBack(steps, outer[part := DomainPart(false, m)])
  {
    assert (steps + [(outer, part)])[..|steps|] == steps;
  }

  /** Passing one entry on the way down changes neither what will be put back nor what is there now. */
  lemma StepDown(steps: seq<(Forest, string)>, current: Forest, parts: seq<string>)
    requires |parts| > 1 && !Entry(current, parts[0]).included
    ensures var entry, deeper := Entry(current, parts[0]), steps + [(current, parts[0])];
      && PutBack(deeper, Inserted(entry.children, parts[1..])) == PutBack(steps, Inserted(current, parts))
      && (parts[0] in current ==> PutBack(deeper, entry.children) == PutBack(steps, current))
  {
    var entry := Entry(current, parts[0]);
    PutBackSnoc(steps, current, parts[0], Inserted(entry.children, parts[1..]));
    PutBackSnoc(steps, current, parts[0], entry.children);
    hide PutBack;
    assert parts[0] in current ==> current[parts[0] := DomainPart(false, entry.children)] == current;
  }

  class SubDomainsTree {
    var children: Forest
    /** The rules inserted so far. */
    ghost var rules: seq<string>

    ghost predicate Valid()
      reads this
    {
      children == Built(AllLabels(rules))
    }

    constructor ()
      ensures Valid() && rules == []
    {
      children := map[];
      rules := [];
    }

    method Insert(value: string)
      requires Valid()
      modifies this
      ensures Valid() && rules == old(rules) + [value]
      ensures children == Inserted(old(children), Labels(value))
    {
      rules := rules + [value];
      assert AllLabels(rules)[..|rules| - 1] == AllLabels(old(rules));
      assert Built(AllLabels(rules)) == Inserted(children, Labels(value));
      hide Built, AllLabels, Labels;
      var parts := Labels(value);
      var current: Forest := children;
      // The entries passed so far, outermost first: the chain of references into the tree.
      var steps: seq<(Forest, string)> := [];
      var i := 0;
      while i < |parts| - 1
        invariant 0 <= i < |parts|
        invariant Inserted(children, parts) == PutBack(steps, Inserted(current, parts[i..]))
        invariant current != map[] ==> PutBack(steps, current) == children
        invariant children == old(children) && rules == old(rules) + [value]
      {
        var entry := Entry(current, parts[i]);
        // A name below an included one adds nothing
        if entry.included {
          return;
        }
        StepDown(steps, current, parts[i..]);
        steps := steps + [(current, parts[i])];
        current := entry.children;
        i := i + 1;
      }
      if Entry(current, parts[i]).included {
        return;
      }
      // What was below the last entry is now covered by it
      children := PutBack(steps, current[parts[i] := DomainPart(true, map[])]);
    }

    method Contains(host: string) returns (found: bool)
      requires Valid()
      ensures found <==> Covers(children, RSplit(host))
      ensures found <==> exists i :: 0 <= i < |rules| && IsSubdomainOf(host, Lower(rules[i]))
    {
      MatchesSubdomains(rules, host);
      var parts := RSplit(host);
      var current := children;
      for i := 0 to |parts|
        invariant Covers(children, parts) <==> Covers(current, parts[i..])
      {
        if parts[i] !in current {
          return false;
        }
        if current[parts[i]].included {
          return true;
        }
        current := current[parts[i]].children;
      }
      return false;
    }

    method IsEmpty() returns (empty: bool)
      requires Valid()
      ensures empty <==> rules == []
    {
      BuiltCanonical(AllLabels(rules));
      return children == map[];
    }
  }
}
