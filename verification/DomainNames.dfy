/** Domain names as strings and as lists of labels. */
module DomainNames {

  function LowerChar(c: char): char {
    if 'A' <= c <= 'Z' then ((c as int) + 32) as char else c
  }

  /** ASCII lower case. */
  function Lower(s: string): (r: string)
    ensures |r| == |s|
    ensures forall i | 0 <= i < |s| :: r[i] == LowerChar(s[i])
  {
    if s == "" then "" else Lower(s[..|s| - 1]) + [LowerChar(s[|s| - 1])]
  }

  /** The 26 capital letters get small, in order; all other characters stay. */
  lemma LowerLetters(c: char)
    ensures var capitals, small := "ABCDEFGHIJKLMNOPQRSTUVWXYZ", "abcdefghijklmnopqrstuvwxyz";
      if c in capitals then exists i :: 0 <= i < 26 && capitals[i] == c && LowerChar(c) == small[i]
      else LowerChar(c) == c
  {
    var capitals, small := "ABCDEFGHIJKLMNOPQRSTUVWXYZ", "abcdefghijklmnopqrstuvwxyz";
    assert forall i | 0 <= i < 26 :: capitals[i] as int == 65 + i && small[i] as int == 97 + i;
    if 'A' <= c <= 'Z' {
      var i := c as int - 65;
      assert capitals[i] == c && LowerChar(c) == small[i];
    } else {
      assert c !in capitals;
    }
  }

  /** The labels of a name from the last to the first, as `rsplit('.')` lists them. */
  function RSplit(s: string): (labels: seq<string>)
    ensures labels != []
  {
    if s == "" then [""]
    else
      var init, c := s[..|s| - 1], s[|s| - 1];
      if c == '.' then [""] + RSplit(init)
      else [RSplit(init)[0] + [c]] + RSplit(init)[1..]
  }

  /** `host` is `name` itself or one of its subdomains, as text. */
  predicate IsSubdomainOf(host: string, name: string) {
    host == name || EndsWith(host, "." + name)
  }

  predicate EndsWith(s: string, t: string) {
    |t| <= |s| && s[|s| - |t|..] == t
  }

  lemma EndsWithInit(s: string, t: string)
    requires t != ""
    ensures EndsWith(s, t) <==> s != "" && s[|s| - 1] == t[|t| - 1] && EndsWith(s[..|s| - 1], t[..|t| - 1])
  {
    if |t| <= |s| {
      assert s[|s| - |t|..] == s[..|s| - 1][|s| - |t|..] + [s[|s| - 1]];
      assert t == t[..|t| - 1] + [t[|t| - 1]];
    }
  }

  lemma ConsPrefix<T>(x: T, xs: seq<T>, y: T, ys: seq<T>)
    ensures [x] + xs <= [y] + ys <==> x == y && xs <= ys
  {
    if [x] + xs <= [y] + ys {
      assert ([x] + xs)[0] == ([y] + ys)[0];
      assert xs == ([x] + xs)[1..] && ys == ([y] + ys)[1..];
    }
  }

  lemma SameSnoc(s: string, c: char, t: string, d: char)
    ensures s + [c] == t + [d] <==> s == t && c == d
  {
    if s + [c] == t + [d] {
      assert s == (s + [c])[..|s|] && t == (t + [d])[..|t|];
      assert (s + [c])[|s|] == c && (t + [d])[|t|] == d;
    }
  }

  lemma RSplitSnoc(s: string, c: char)
    ensures RSplit(s + [c]) == if c == '.' then [""] + RSplit(s) else [RSplit(s)[0] + [c]] + RSplit(s)[1..]
  {
    assert (s + [c])[..|s|] == s;
  }

  lemma LabelsStep(h: string, a: char, n: string, b: char)
    ensures RSplit(n + [b]) <= RSplit(h + [a]) <==> a == b && RSplit(n) <= RSplit(h)
  {
    RSplitSnoc(h, a);
    RSplitSnoc(n, b);
    var hs, ns := RSplit(h), RSplit(n);
    hide RSplit;
    assert hs == [hs[0]] + hs[1..] && ns == [ns[0]] + ns[1..];
    ConsPrefix(ns[0], ns[1..], hs[0], hs[1..]);
    ConsPrefix("", ns, "", hs);
    ConsPrefix(ns[0] + [b], ns[1..], hs[0] + [a], hs[1..]);
    ConsPrefix("", ns, hs[0] + [a], hs[1..]);
    ConsPrefix(ns[0] + [b], ns[1..], "", hs);
    SameSnoc(ns[0], b, hs[0], a);
  }

  lemma SubdomainStep(h: string, a: char, n: string, b: char)
    ensures IsSubdomainOf(h + [a], n + [b]) <==> a == b && IsSubdomainOf(h, n)
  {
    SameSnoc(h, a, n, b);
    EndsWithInit(h + [a], "." + (n + [b]));
    assert ("." + (n + [b]))[..|n| + 1] == "." + n;
    assert (h + [a])[..|h|] == h;
  }

  lemma EmptyName(host: string)
    ensures IsSubdomainOf(host, "") <==> RSplit(host)[0] == ""
    ensures RSplit("") <= RSplit(host) <==> RSplit(host)[0] == ""
  {
    if host != "" {
      EndsWithInit(host, ".");
      assert "." + "" == ".";
    }
    assert RSplit("") == [""];
    if RSplit(host)[0] == "" {
      assert RSplit(host)[..1] == [""];
    }
  }

  /** Being a subdomain as text is having the name's labels last. */
  lemma {:induction false} SubdomainByLabels(host: string, name: string)
    ensures IsSubdomainOf(host, name) <==> RSplit(name) <= RSplit(host)
  {
    if name == "" {
      EmptyName(host);
    } else if host == "" {
      RSplitSnoc(name[..|name| - 1], name[|name| - 1]);
      assert name == name[..|name| - 1] + [name[|name| - 1]];
      assert RSplit(host) == [""];
    } else {
      var h, n := host[..|host| - 1], name[..|name| - 1];
      var a, b := host[|host| - 1], name[|name| - 1];
      assert host == h + [a] && name == n + [b];
      hide RSplit, IsSubdomainOf;
      SubdomainByLabels(h, n);
      LabelsStep(h, a, n, b);
      SubdomainStep(h, a, n, b);
    }
  }
}
