/** Comma-separated lists in header values: `split(',')` and `trim`. */
module CommaLists {
  import opened DomainNames

  function SplitComma(s: string): (parts: seq<string>)
    ensures parts != []
  {
    if s == "" then [""]
    else
      var parts := SplitComma(s[..|s| - 1]);
      if s[|s| - 1] == ',' then parts + [""]
      else parts[|parts| - 1 := parts[|parts| - 1] + [s[|s| - 1]]]
  }

  function JoinComma(parts: seq<string>): string {
    if parts == [] then ""
    else if |parts| == 1 then parts[0]
    else JoinComma(parts[..|parts| - 1]) + "," + parts[|parts| - 1]
  }

  predicate Blank(c: char) {
    c == ' ' || c == '\t'
  }

  function Trim(s: string): (r: string)
    ensures r == "" || (!Blank(r[0]) && !Blank(r[|r| - 1]))
  {
    if s == "" then ""
    else if Blank(s[0]) then Trim(s[1..])
    else if Blank(s[|s| - 1]) then Trim(s[..|s| - 1])
    else s
  }

  lemma JoinSnoc(parts: seq<string>, last: string)
    requires parts != []
    ensures JoinComma(parts + [last]) == JoinComma(parts) + "," + last
  {
    assert (parts + [last])[..|parts|] == parts;
  }

  lemma JoinExtend(parts: seq<string>, c: char)
    requires parts != []
    ensures var n := |parts| - 1;
      JoinComma(parts[n := parts[n] + [c]]) == JoinComma(parts) + [c]
  {
    var n := |parts| - 1;
    var longer := parts[n] + [c];
    assert parts == parts[..n] + [parts[n]];
    assert parts[n := longer] == parts[..n] + [longer];
    if n > 0 {
      JoinSnoc(parts[..n], parts[n]);
      JoinSnoc(parts[..n], longer);
      hide JoinComma;
      assert JoinComma(parts[..n]) + "," + parts[n] + [c] == JoinComma(parts[..n]) + "," + longer;
    }
  }

  /** The parts of a value are free of commas and make up the value. */
  lemma {:induction false} SplitInverts(s: string)
    ensures JoinComma(SplitComma(s)) == s
    ensures forall p <- SplitComma(s) :: ',' !in p
  {
    if s == "" {
      assert JoinComma([""]) == "";
    } else {
      hide JoinComma;
      var init, c := s[..|s| - 1], s[|s| - 1];
      SplitInverts(init);
      assert s == init + [c];
      if c == ',' {
        JoinSnoc(SplitComma(init), "");
        assert init + "," + "" == s;
      } else {
        JoinExtend(SplitComma(init), c);
      }
    }
  }

  lemma {:induction false} NoCommaNoSplit(s: string)
    requires ',' !in s
    ensures SplitComma(s) == [s]
  {
    if s != "" {
      NoCommaNoSplit(s[..|s| - 1]);
      assert s == s[..|s| - 1] + [s[|s| - 1]];
    }
  }

  // ------------------------------------------------------------------ what trimming gives

  predicate AllBlank(s: string) {
    forall i | 0 <= i < |s| :: s[i] == ' ' || s[i] == '\t'
  }

  /** No blank at either end. */
  predicate IsTrimmed(s: string) {
    s != "" ==>
      s[0] != ' ' && s[0] != '\t' && s[|s| - 1] != ' ' && s[|s| - 1] != '\t'
  }

  lemma MoreBlanks(c: char, left: string, t: string, right: string)
    requires AllBlank(left) && AllBlank(right) && Blank(c)
    ensures AllBlank([c] + left) && AllBlank(right + [c])
    ensures [c] + (left + t + right) == ([c] + left) + t + right
    ensures (left + t + right) + [c] == left + t + (right + [c])
  {
  }

  lemma TrimsFirst(s: string)
    requires s != "" && Blank(s[0])
    ensures Trim(s) == Trim(s[1..])
    ensures s == [s[0]] + s[1..]
  {
    hide Blank;
  }

  lemma TrimsLast(s: string)
    requires s != "" && !Blank(s[0]) && Blank(s[|s| - 1])
    ensures Trim(s) == Trim(s[..|s| - 1])
    ensures s == s[..|s| - 1] + [s[|s| - 1]]
  {
    hide Blank;
  }

  lemma TrimsNothing(s: string)
    requires s != "" && !Blank(s[0]) && !Blank(s[|s| - 1])
    ensures Trim(s) == s && IsTrimmed(s)
  {
  }

  /** Trimming takes blanks off both ends and nothing else. */
  lemma {:induction false} TrimParts(s: string) returns (left: string, right: string)
    ensures s == left + Trim(s) + right && AllBlank(left) && AllBlank(right) && IsTrimmed(Trim(s))
  {
    if s == "" {
      left, right := "", "";
    } else {
      hide Trim, IsTrimmed, Blank;
      if Blank(s[0]) {
        TrimsFirst(s);
        left, right := TrimParts(s[1..]);
        MoreBlanks(s[0], left, Trim(s), right);
        left := [s[0]] + left;
      } else if Blank(s[|s| - 1]) {
        TrimsLast(s);
        left, right := TrimParts(s[..|s| - 1]);
        MoreBlanks(s[|s| - 1], left, Trim(s), right);
        right := right + [s[|s| - 1]];
      } else {
        TrimsNothing(s);
        left, right := "", "";
        assert s == "" + s + "";
      }
    }
  }

  /** So it gives the only such text. */
  lemma {:induction false} TrimUnique(left: string, t: string, right: string)
    requires AllBlank(left) && AllBlank(right) && IsTrimmed(t)
    ensures Trim(left + t + right) == t
    decreases |left| + |right|
  {
    var s := left + t + right;
    if left != "" {
      TrimUnique(left[1..], t, right);
      assert s[1..] == left[1..] + t + right;
    } else if right != "" {
      var n := |right| - 1;
      TrimUnique(left, t, right[..n]);
      assert s[..|s| - 1] == left + t + right[..n];
      if t == "" {
        BlankTrims(s);
      }
    } else {
      assert s == t;
    }
  }

  lemma {:induction false} BlankTrims(s: string)
    requires AllBlank(s)
    ensures Trim(s) == ""
  {
    if s != "" {
      BlankTrims(s[1..]);
    }
  }

  // ------------------------------------------------------------------ which stretches are parts

  /** A stretch between commas, or between one and an end, without commas itself. */
  predicate IsPart(s: string, a: nat, b: nat) {
    && a <= b <= |s| && ',' !in s[a..b]
    && (a == 0 || s[a - 1] == ',') && (b == |s| || s[b] == ',')
  }

  lemma {:induction false} LastPart(s: string) returns (a: nat)
    ensures IsPart(s, a, |s|) && SplitComma(s)[|SplitComma(s)| - 1] == s[a..]
  {
    if s == "" {
      a := 0;
    } else if s[|s| - 1] == ',' {
      a := |s|;
    } else {
      var init := s[..|s| - 1];
      a := LastPart(init);
      assert s[a..] == init[a..] + [s[|s| - 1]];
      assert init[a..|init|] == init[a..] && s[a..|s|] == s[a..];
    }
  }

  /** Every part is such a stretch. */
  lemma {:induction false} PartAt(s: string, k: nat) returns (a: nat, b: nat)
    requires k < |SplitComma(s)|
    ensures IsPart(s, a, b) && s[a..b] == SplitComma(s)[k]
    ensures k < |SplitComma(s)| - 1 ==> b < |s|
  {
    if k == |SplitComma(s)| - 1 {
      a := LastPart(s);
      b := |s|;
      assert s[a..b] == s[a..];
    } else {
      var init := s[..|s| - 1];
      a, b := PartAt(init, k);
      assert s[a..b] == init[a..b];
    }
  }

  lemma LastIn(s: string, a: nat)
    requires a < |s|
    ensures s[|s| - 1] in s[a..|s|]
  {
    assert s[a..|s|][|s| - 1 - a] == s[|s| - 1];
  }

  lemma {:induction false} LastPartIs(s: string, a: nat)
    requires IsPart(s, a, |s|)
    ensures SplitComma(s)[|SplitComma(s)| - 1] == s[a..]
  {
    if s != "" {
      var n := |s| - 1;
      var init := s[..n];
      if s[n] == ',' {
        if a <= n {
          LastIn(s, a);
        }
      } else {
        assert s[a..] == init[a..] + [s[n]];
        forall c | c in init[a..n]
          ensures c in s[a..|s|]
        {
          assert init[a..n] == s[a..|s|][..n - a];
        }
        LastPartIs(init, a);
      }
    }
  }

  /** Every such stretch is a part. */
  lemma {:induction false} PartIndex(s: string, a: nat, b: nat) returns (k: nat)
    requires IsPart(s, a, b)
    ensures k < |SplitComma(s)| && SplitComma(s)[k] == s[a..b]
    ensures b < |s| ==> k < |SplitComma(s)| - 1
  {
    if b == |s| {
      k := |SplitComma(s)| - 1;
      LastPartIs(s, a);
      assert s[a..b] == s[a..];
    } else {
      var init := s[..|s| - 1];
      assert init[a..b] == s[a..b];
      k := PartIndex(init, a, b);
    }
  }

  /** The text between positions `i` and `j` is `name` in some case, and nothing but blanks separates it from the
      commas or ends at `a` and `b`. */
  predicate Spells(s: string, a: nat, i: nat, j: nat, b: nat, name: string) {
    && a <= i <= j <= b <= |s|
    && (a == 0 || s[a - 1] == ',') && (b == |s| || s[b] == ',')
    && AllBlank(s[a..i]) && AllBlank(s[j..b])
    && ',' !in s[i..j] && IsTrimmed(s[i..j])
    && Lower(s[i..j]) == name
  }

  /** A text lists a name. */
  ghost predicate Lists(s: string, name: string) {
    exists a: nat, i: nat, j: nat, b: nat :: Spells(s, a, i, j, b, name)
  }

  /** Some part of a name in lower case. */
  predicate NamedIn(parts: seq<string>, name: string) {
    exists p <- parts :: Lower(Trim(p)) == name
  }

  lemma SliceOf(s: string, a: nat, b: nat, x: nat, y: nat)
    requires a <= b <= |s| && x <= y <= b - a
    ensures s[a..b][x..y] == s[a + x..a + y]
  {
    var inner, outer := s[a..b][x..y], s[a + x..a + y];
    assert |inner| == |outer| == y - x;
    assert forall k | 0 <= k < y - x :: inner[k] == s[a..b][x + k] == s[a + (x + k)] == outer[k];
  }

  lemma Slices(left: string, t: string, right: string)
    ensures var p := left + t + right;
      p[0..|left|] == left && p[|left|..|left| + |t|] == t && p[|left| + |t|..|p|] == right
    ensures forall c <- t :: c in left + t + right
  {
    var p := left + t + right;
    assert p[..|left|] == left && p[|left|..][..|t|] == t && p[|left| + |t|..] == right;
    forall c | c in t
      ensures c in p
    {
      var i :| 0 <= i < |t| && t[i] == c;
      assert p[|left| + i] == c;
    }
  }

  lemma PartSpells(s: string, name: string, p: string)
    requires p in SplitComma(s) && Lower(Trim(p)) == name
    ensures Lists(s, name)
  {
    hide SplitComma, Lower, Trim, Lists, AllBlank, IsTrimmed;
    var k :| 0 <= k < |SplitComma(s)| && SplitComma(s)[k] == p;
    var a, b := PartAt(s, k);
    var left, right := TrimParts(p);
    var l, m := |left|, |left| + |Trim(p)|;
    Slices(left, Trim(p), right);
    SliceOf(s, a, b, 0, l);
    SliceOf(s, a, b, l, m);
    SliceOf(s, a, b, m, |p|);
    SpellsLists(s, a, a + l, a + m, b, name);
  }

  lemma SpellsLists(s: string, a: nat, i: nat, j: nat, b: nat, name: string)
    requires Spells(s, a, i, j, b, name)
    ensures Lists(s, name)
  {
    hide Spells;
  }

  lemma SpelledPart(s: string, a: nat, i: nat, j: nat, b: nat, name: string)
    requires Spells(s, a, i, j, b, name)
    ensures NamedIn(SplitComma(s), name)
  {
    hide SplitComma, Lower, Trim;
    assert s[a..b] == s[a..i] + s[i..j] + s[j..b];
    assert forall c <- s[a..b] :: c in s[a..i] || c in s[i..j] || c in s[j..b];
    var k := PartIndex(s, a, b);
    TrimUnique(s[a..i], s[i..j], s[j..b]);
    assert s[a..b] in SplitComma(s);
  }

  /** Splitting at commas and trimming finds exactly the names a text lists. */
  lemma NamedInExact(s: string, name: string)
    ensures NamedIn(SplitComma(s), name) <==> Lists(s, name)
  {
    if NamedIn(SplitComma(s), name) {
      hide SplitComma, Lower, Trim, Lists;
      var p :| p in SplitComma(s) && Lower(Trim(p)) == name;
      PartSpells(s, name, p);
    }
    if Lists(s, name) {
      hide Spells, NamedIn, SplitComma;
      var a: nat, i: nat, j: nat, b: nat :| Spells(s, a, i, j, b, name);
      SpelledPart(s, a, i, j, b, name);
    }
  }

  /** A name between blanks and commas is listed, whatever stands before and after. */
  lemma BetweenCommas(a: string, left: string, n: string, right: string, b: string)
    requires AllBlank(left) && AllBlank(right) && ',' !in n && IsTrimmed(n)
    ensures Lists(a + "," + left + n + right + "," + b, Lower(n))
  {
    hide Lower, Lists, IsTrimmed;
    var s := a + "," + left + n + right + "," + b;
    var from := |a| + 1;
    var i := from + |left|;
    var j := i + |n|;
    var to := j + |right|;
    assert s[from..i] == left by {
      assert s == (a + ",") + left + (n + right + "," + b);
    }
    assert s[i..j] == n by {
      assert s == (a + "," + left) + n + (right + "," + b);
    }
    assert s[j..to] == right by {
      assert s == (a + "," + left + n) + right + ("," + b);
    }
    assert s[from - 1] == ',' && s[to] == ',';
    SpellsLists(s, from, i, j, to, Lower(n));
  }
}
