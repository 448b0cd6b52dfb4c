/** The part of the regular expression language that host rules rewritten by the ACL loader use. */
module HostPatterns {
  import opened Prelude
  import opened DomainNames

  /** Tells whether an expression, given as text, is found in a host. */
  type Matcher = (string, string) -> bool

  /** `Dots(n)` is `n` or more characters other than a line feed. */
  datatype Re =
    | Text(text: string)
    | Start
    | End
    | Dots(least: nat)
    | Either(left: Re, right: Re)
    | Then(first: Re, second: Re)

  /** `re` matches the part `s[i..j]` of `s`. */
  ghost predicate Matches(re: Re, s: string, i: nat, j: nat)
    requires i <= j <= |s|
  {
    match re
    case Text(text) => s[i..j] == text
    case Start => i == j == 0
    case End => i == j == |s|
    case Dots(least) => i + least <= j && '\n' !in s[i..j]
    case Either(left, right) => Matches(left, s, i, j) || Matches(right, s, i, j)
    case Then(first, second) => exists k :: i <= k <= j && Matches(first, s, i, k) && Matches(second, s, k, j)
  }

  /** Unanchored search. */
  ghost predicate Search(re: Re, s: string) {
    exists i, j :: 0 <= i <= j <= |s| && Matches(re, s, i, j)
  }

  // ------------------------------------------------------------------ recognised rules

  /** How a recognised rule starts: `(^|\.)`, `(?:^|\.)`, `\.`, `^.+\.`, `^.*\.` or `^`. */
  datatype Head = Group | PlainGroup | AfterDot | PlusDot | StarDot | Whole

  /** A recognised rule: its start, the name it spells, and whether it ends with `$`. */
  datatype Shape = Shape(head: Head, name: string, anchored: bool)

  function HeadText(head: Head): string {
    match head
    case Group => "(^|\\.)"
    case PlainGroup => "(?:^|\\.)"
    case AfterDot => "\\."
    case PlusDot => "^.+\\."
    case StarDot => "^.*\\."
    case Whole => "^"
  }

  function HeadRe(head: Head): Re {
    match head
    case Group => Either(Start, Text("."))
    case PlainGroup => Either(Start, Text("."))
    case AfterDot => Text(".")
    case PlusDot => Then(Start, Then(Dots(1), Text(".")))
    case StarDot => Then(Start, Then(Dots(0), Text(".")))
    case Whole => Start
  }

  predicate WordChar(c: char) {
    'a' <= c <= 'z' || 'A' <= c <= 'Z' || '0' <= c <= '9' || c == '_' || c == '-'
  }

  /** Word characters with single dots between or after them. */
  predicate IsName(name: string, afterWord: bool) {
    || name == ""
    || (WordChar(name[0]) && IsName(name[1..], true))
    || (afterWord && name[0] == '.' && IsName(name[1..], false))
  }

  predicate WellFormed(shape: Shape) {
    shape.name != "" && IsName(shape.name, false)
  }

  function Escaped(name: string): string {
    if name == "" then "" else (if name[0] == '.' then "\\." else [name[0]]) + Escaped(name[1..])
  }

  /** The text of a rule. */
  function Spelled(shape: Shape): string {
    HeadText(shape.head) + Escaped(shape.name) + if shape.anchored then "$" else ""
  }

  /** The name and what may follow it. */
  function Tail(name: string, anchored: bool): Re {
    Then(Text(name), if anchored then End else Text(""))
  }

  /** The expression a rule denotes once its text is lower-cased. */
  function Meaning(shape: Shape): Re {
    Then(HeadRe(shape.head), Tail(Lower(shape.name), shape.anchored))
  }

  /** Reads an escaped name. */
  function ReadName(text: string, afterWord: bool): (r: Option<string>)
    ensures r.Some? ==> text == Escaped(r.value) && IsName(r.value, afterWord)
  {
    if text == "" then Some("")
    else if WordChar(text[0]) then
      match ReadName(text[1..], true)
      case None => None
      case Some(rest) =>
        assert ([text[0]] + rest)[1..] == rest;
        Some([text[0]] + rest)
    else if afterWord && "\\." <= text then
      match ReadName(text[2..], false)
      case None => None
      case Some(rest) =>
        assert ("." + rest)[1..] == rest;
        Some("." + rest)
    else None
  }

  /** Reads a rule that starts as `head` says, with or without a final `$`. */
  function ReadAfter(head: Head, rule: string): (r: Option<Shape>)
    ensures r.Some? ==> WellFormed(r.value) && rule == Spelled(r.value) && r.value.head == head
  {
    if HeadText(head) <= rule then
      var rest := rule[|HeadText(head)|..];
      var anchored := rest != "" && rest[|rest| - 1] == '$';
      var body := if anchored then rest[..|rest| - 1] else rest;
      match ReadName(body, false)
      case Some(name) =>
        if name == "" then None
        else
          assert rest == body + if anchored then "$" else "";
          Some(Shape(head, name, anchored))
      case None => None
    else None
  }

  /** What the loader's own pattern captures from a rule. */
  function Recognise(rule: string): (r: Option<Shape>)
    ensures r.Some? ==> WellFormed(r.value) && rule == Spelled(r.value)
  {
    var tree := FirstOf([Group, PlainGroup, PlusDot, StarDot, AfterDot], rule);
    if tree.Some? then tree else ReadAfter(Whole, rule)
  }

  function FirstOf(heads: seq<Head>, rule: string): (r: Option<Shape>)
    ensures r.Some? ==> WellFormed(r.value) && rule == Spelled(r.value)
    ensures r.None? <==> forall h <- heads :: ReadAfter(h, rule).None?
  {
    if heads == [] then None
    else if ReadAfter(heads[0], rule).Some? then ReadAfter(heads[0], rule)
    else FirstOf(heads[1..], rule)
  }

  lemma {:induction false} ReadsEscaped(name: string, afterWord: bool)
    requires IsName(name, afterWord)
    ensures ReadName(Escaped(name), afterWord) == Some(name)
  {
    if name != "" {
      if name[0] == '.' {
        ReadsEscaped(name[1..], false);
        assert Escaped(name)[2..] == Escaped(name[1..]);
      } else {
        ReadsEscaped(name[1..], true);
        assert Escaped(name)[1..] == Escaped(name[1..]);
      }
      assert name == [name[0]] + name[1..];
    }
  }

  lemma {:induction false} EscapedHasNoDollar(name: string, afterWord: bool)
    requires IsName(name, afterWord)
    ensures '$' !in Escaped(name)
  {
    if name != "" {
      EscapedHasNoDollar(name[1..], name[0] != '.');
    }
  }

  lemma FinalDollar(body: string, anchored: bool)
    requires '$' !in body && body != ""
    ensures var rest := body + if anchored then "$" else "";
      (rest[|rest| - 1] == '$' <==> anchored) && (anchored ==> rest[..|rest| - 1] == body)
  {
    assert body[|body| - 1] in body;
  }

  lemma ReadsSpelled(shape: Shape)
    requires WellFormed(shape)
    ensures ReadAfter(shape.head, Spelled(shape)) == Some(shape)
  {
    var head, body := HeadText(shape.head), Escaped(shape.name);
    var rest := body + if shape.anchored then "$" else "";
    assert body != "";
    ReadsEscaped(shape.name, false);
    EscapedHasNoDollar(shape.name, false);
    hide HeadText, Escaped, ReadName, IsName;
    FinalDollar(body, shape.anchored);
    assert Spelled(shape) == head + rest;
    assert Spelled(shape)[|head|..] == rest;
    assert !shape.anchored ==> rest == body;
  }

  lemma SpelledStarts(shape: Shape)
    requires WellFormed(shape)
    ensures var text, rule := HeadText(shape.head), Spelled(shape);
      text <= rule && |rule| > |text| && WordChar(rule[|text|])
  {
    var body := Escaped(shape.name) + if shape.anchored then "$" else "";
    assert Spelled(shape) == HeadText(shape.head) + body;
    assert body[0] == shape.name[0];
  }

  lemma HeadsDiffer(a: Head, b: Head) returns (k: nat)
    requires a != b && a != Whole && b != Whole
    ensures k < |HeadText(a)| && k < |HeadText(b)| && HeadText(a)[k] != HeadText(b)[k]
  {
    var x, y := HeadText(a), HeadText(b);
    k := if x[0] != y[0] then 0 else if x[1] != y[1] then 1 else 2;
  }

  lemma NotWholeName(rule: string)
    requires |rule| > 1 && rule[0] == '^' && rule[1] == '.'
    ensures ReadAfter(Whole, rule).None?
  {
    var rest := rule[1..];
    assert rest[0] == '.';
    assert |rest| > 1 ==> rest[..|rest| - 1][0] == '.';
  }

  lemma HeadChars(head: Head)
    ensures var text := HeadText(head);
      && text != ""
      && (text[0] == '^' ==> head == Whole || (|text| > 1 && text[1] == '.'))
      && (head == Whole ==> text == "^")
  {
  }

  /** The first characters of a spelled rule tell its head. */
  lemma HeadIsUnique(shape: Shape, head: Head)
    requires WellFormed(shape) && head != shape.head
    ensures ReadAfter(head, Spelled(shape)).None?
  {
    var rule, text, other := Spelled(shape), HeadText(shape.head), HeadText(head);
    SpelledStarts(shape);
    HeadChars(head);
    HeadChars(shape.head);
    hide Spelled, ReadAfter, HeadText, WellFormed;
    assert forall k | 0 <= k < |text| :: rule[k] == text[k];
    if other <= rule {
      assert forall k | 0 <= k < |other| :: rule[k] == other[k];
      assert rule[0] == text[0] == other[0];
      if head == Whole {
        NotWholeName(rule);
      } else if shape.head != Whole {
        var k := HeadsDiffer(shape.head, head);
      }
    } else {
      NotPrefix(head, rule);
    }
  }

  lemma NotPrefix(head: Head, rule: string)
    requires !(HeadText(head) <= rule)
    ensures ReadAfter(head, rule).None?
  {
  }

  /** The recogniser accepts exactly the spelled rules and recovers their parts. */
  lemma RecogniseExact(rule: string, shape: Shape)
    ensures Recognise(rule) == Some(shape) <==> WellFormed(shape) && rule == Spelled(shape)
  {
    if WellFormed(shape) && rule == Spelled(shape) {
      ReadsSpelled(shape);
      var found := Recognise(rule);
      var heads := [Group, PlainGroup, PlusDot, StarDot, AfterDot];
      if shape.head != Whole {
        assert shape.head in heads;
        assert FirstOf(heads, rule).Some?;
      }
      assert found.Some?;
      if found.value.head != shape.head {
        HeadIsUnique(found.value, shape.head);
      } else {
        ReadsSpelled(found.value);
      }
    }
  }

  // ------------------------------------------------------------------ what the expressions match

  /** `name` occurs in `s` from position `k`, up to the end if `anchored`. */
  predicate OccursAt(s: string, name: string, k: nat, anchored: bool) {
    k + |name| <= |s| && s[k..k + |name|] == name && (anchored ==> k + |name| == |s|)
  }

  /** What precedes the name fits the head: the name starts at `k`. */
  predicate HeadFits(head: Head, s: string, k: nat)
    requires k <= |s|
  {
    match head
    case Group => k == 0 || s[k - 1] == '.'
    case PlainGroup => k == 0 || s[k - 1] == '.'
    case AfterDot => k > 0 && s[k - 1] == '.'
    case PlusDot => k > 1 && s[k - 1] == '.' && '\n' !in s[..k - 1]
    case StarDot => k > 0 && s[k - 1] == '.' && '\n' !in s[..k - 1]
    case Whole => k == 0
  }

  /** `re` matches some part of `s` that ends at `k`. */
  ghost predicate EndsAt(re: Re, s: string, k: nat)
    requires k <= |s|
  {
    exists i :: 0 <= i <= k && Matches(re, s, i, k)
  }

  /** `re` matches some part of `s` that starts at `k`. */
  ghost predicate StartsAt(re: Re, s: string, k: nat)
    requires k <= |s|
  {
    exists j :: k <= j <= |s| && Matches(re, s, k, j)
  }

  lemma SplitThen(first: Re, second: Re, s: string, i: nat, j: nat) returns (k: nat)
    requires i <= j <= |s| && Matches(Then(first, second), s, i, j)
    ensures i <= k <= j && Matches(first, s, i, k) && Matches(second, s, k, j)
  {
    k :| i <= k <= j && Matches(first, s, i, k) && Matches(second, s, k, j);
  }

  lemma JoinThen(first: Re, second: Re, s: string, i: nat, k: nat, j: nat)
    requires i <= k <= j <= |s| && Matches(first, s, i, k) && Matches(second, s, k, j)
    ensures Matches(Then(first, second), s, i, j)
  {
  }

  lemma DotEndsAt(s: string, k: nat)
    requires k <= |s|
    ensures EndsAt(Text("."), s, k) <==> k > 0 && s[k - 1] == '.'
  {
    if k > 0 && s[k - 1] == '.' {
      assert Matches(Text("."), s, k - 1, k);
    }
    if EndsAt(Text("."), s, k) {
      var i :| 0 <= i <= k && Matches(Text("."), s, i, k);
      assert s[i..k][0] == '.';
    }
  }

  lemma StartEndsAt(s: string, k: nat)
    requires k <= |s|
    ensures EndsAt(Start, s, k) <==> k == 0
  {
    if k == 0 {
      assert Matches(Start, s, 0, 0);
    }
  }

  lemma EitherEndsAt(left: Re, right: Re, s: string, k: nat)
    requires k <= |s|
    ensures EndsAt(Either(left, right), s, k) <==> EndsAt(left, s, k) || EndsAt(right, s, k)
  {
    if EndsAt(left, s, k) {
      var i :| 0 <= i <= k && Matches(left, s, i, k);
      assert Matches(Either(left, right), s, i, k);
    }
    if EndsAt(right, s, k) {
      var i :| 0 <= i <= k && Matches(right, s, i, k);
      assert Matches(Either(left, right), s, i, k);
    }
    if EndsAt(Either(left, right), s, k) {
      var i :| 0 <= i <= k && Matches(Either(left, right), s, i, k);
      assert Matches(left, s, i, k) || Matches(right, s, i, k);
    }
  }

  lemma RunDotEndsAt(least: nat, s: string, k: nat)
    requires k <= |s|
    ensures EndsAt(Then(Start, Then(Dots(least), Text("."))), s, k) <==>
      k > least && s[k - 1] == '.' && '\n' !in s[..k - 1]
  {
    var run := Then(Dots(least), Text("."));
    if k > least && s[k - 1] == '.' && '\n' !in s[..k - 1] {
      assert s[0..k - 1] == s[..k - 1];
      JoinThen(Dots(least), Text("."), s, 0, k - 1, k);
      JoinThen(Start, run, s, 0, 0, k);
    }
    if EndsAt(Then(Start, run), s, k) {
      var i :| 0 <= i <= k && Matches(Then(Start, run), s, i, k);
      var b := SplitThen(Start, run, s, i, k);
      var c := SplitThen(Dots(least), Text("."), s, b, k);
      assert s[c..k][0] == '.';
      assert s[0..c] == s[..k - 1];
    }
  }

  lemma HeadEndsAt(head: Head, s: string, k: nat)
    requires k <= |s|
    ensures EndsAt(HeadRe(head), s, k) <==> HeadFits(head, s, k)
  {
    hide EndsAt;
    DotEndsAt(s, k);
    StartEndsAt(s, k);
    EitherEndsAt(Start, Text("."), s, k);
    RunDotEndsAt(0, s, k);
    RunDotEndsAt(1, s, k);
  }

  lemma TailStartsAt(name: string, anchored: bool, s: string, k: nat)
    requires k <= |s|
    ensures StartsAt(Tail(name, anchored), s, k) <==> OccursAt(s, name, k, anchored)
  {
    var last := if anchored then End else Text("");
    if OccursAt(s, name, k, anchored) {
      JoinThen(Text(name), last, s, k, k + |name|, k + |name|);
    }
    if StartsAt(Tail(name, anchored), s, k) {
      var j :| k <= j <= |s| && Matches(Tail(name, anchored), s, k, j);
      var m := SplitThen(Text(name), last, s, k, j);
    }
  }

  lemma SearchSplits(first: Re, second: Re, s: string)
    ensures Search(Then(first, second), s) <==>
      exists k :: 0 <= k <= |s| && EndsAt(first, s, k) && StartsAt(second, s, k)
  {
    if Search(Then(first, second), s) {
      var i, j :| 0 <= i <= j <= |s| && Matches(Then(first, second), s, i, j);
      var k := SplitThen(first, second, s, i, j);
      assert EndsAt(first, s, k) && StartsAt(second, s, k);
    }
    if k :| 0 <= k <= |s| && EndsAt(first, s, k) && StartsAt(second, s, k) {
      var i :| 0 <= i <= k && Matches(first, s, i, k);
      var j :| k <= j <= |s| && Matches(second, s, k, j);
      JoinThen(first, second, s, i, k, j);
    }
  }

  /** The name of the rule occurs at `k` with a fitting start and end. */
  predicate Found(shape: Shape, s: string, k: nat)
    requires k <= |s|
  {
    HeadFits(shape.head, s, k) && OccursAt(s, Lower(shape.name), k, shape.anchored)
  }

  /** The search succeeds exactly when the name occurs somewhere with a fitting start and end. */
  lemma SearchFindsName(shape: Shape, s: string)
    ensures Search(Meaning(shape), s) <==> exists k :: 0 <= k <= |s| && Found(shape, s, k)
  {
    hide HeadFits, OccursAt, EndsAt, StartsAt;
    var first, second := HeadRe(shape.head), Tail(Lower(shape.name), shape.anchored);
    SearchSplits(first, second, s);
    forall k | 0 <= k <= |s|
      ensures Found(shape, s, k) <==> EndsAt(first, s, k) && StartsAt(second, s, k)
    {
      HeadEndsAt(shape.head, s, k);
      TailStartsAt(Lower(shape.name), shape.anchored, s, k);
    }
  }

  // ------------------------------------------------------------------ the rules as they are written

  /** Letters, digits, underscore, hyphen. */
  predicate InWord(c: char) {
    || 97 <= c as int <= 122 || 65 <= c as int <= 90 || 48 <= c as int <= 57 || c as int == 95 || c as int == 45
  }

  /** A name is made of these and of dots, none at its start and no two in a row. */
  lemma {:induction false} NameExact(name: string, afterWord: bool)
    ensures IsName(name, afterWord) <==>
      && (forall i | 0 <= i < |name| :: InWord(name[i]) || name[i] == '.')
      && (name != "" && !afterWord ==> name[0] != '.')
      && (forall i | 0 < i < |name| :: name[i] != '.' || name[i - 1] != '.')
  {
    if name != "" {
      var rest := name[1..];
      NameExact(rest, name[0] != '.');
      assert forall i | 0 < i < |name| :: name[i] == rest[i - 1];
      assert forall i | 0 <= i < |rest| :: rest[i] == name[i + 1];
    }
  }

  function EscapedChar(c: char): string {
    if c == '.' then "\\." else [c]
  }

  lemma EscapedStep(c: char, s: string)
    ensures Escaped([c] + s) == EscapedChar(c) + Escaped(s)
  {
    assert ([c] + s)[1..] == s;
  }

  /** Escaping goes character by character: a dot gets a backslash, any other character stays. */
  lemma {:induction false} EscapedExact(a: string, b: string)
    ensures Escaped(a + b) == Escaped(a) + Escaped(b)
    ensures a == "." ==> Escaped(a) == "\\."
    ensures |a| == 1 && a != "." ==> Escaped(a) == a
  {
    if a == "" {
      assert a + b == b && Escaped(a) + Escaped(b) == Escaped(b);
    } else {
      var c, rest := a[0], a[1..];
      assert a == [c] + rest;
      assert a + b == [c] + (rest + b);
      assert Escaped("") == "";
      hide Escaped;
      EscapedStep(c, rest);
      EscapedStep(c, rest + b);
      EscapedExact(rest, b);
      assert EscapedChar(c) + (Escaped(rest) + Escaped(b)) == EscapedChar(c) + Escaped(rest) + Escaped(b);
    }
  }

  /** The name occurs at `k`, up to the end if it must. */
  predicate NamedAt(host: string, name: string, anchored: bool, k: nat) {
    && k + |name| <= |host| && (anchored ==> k + |name| == |host|)
    && forall i | 0 <= i < |name| :: host[k + i] == LowerChar(name[i])
  }

  lemma NamedAtIs(host: string, name: string, anchored: bool, k: nat)
    ensures NamedAt(host, name, anchored, k) <==> OccursAt(host, Lower(name), k, anchored)
  {
    var low := Lower(name);
    if k + |name| <= |host| {
      assert host[k..k + |name|] == low <==> forall i | 0 <= i < |name| :: host[k + i] == low[i];
    }
  }

  /** What each text in front of an escaped name asks of the place where the name occurs. */
  predicate PlaceFits(text: string, host: string, k: nat)
    requires k <= |host|
  {
    if text == "^" then k == 0
    else if text == "(^|\\.)" || text == "(?:^|\\.)" then k == 0 || host[k - 1] == '.'
    else if text == "\\." then k >= 1 && host[k - 1] == '.'
    else if text == "^.*\\." then k >= 1 && host[k - 1] == '.' && '\n' !in host[..k - 1]
    else if text == "^.+\\." then k >= 2 && host[k - 1] == '.' && '\n' !in host[..k - 1]
    else false
  }

  const HEAD_TEXTS: seq<string> := ["(^|\\.)", "(?:^|\\.)", "\\.", "^.+\\.", "^.*\\.", "^"]

  lemma HeadTexts(head: Head)
    ensures HeadText(head) in HEAD_TEXTS
    ensures forall host: string, k: nat | k <= |host| :: PlaceFits(HeadText(head), host, k) <==> HeadFits(head, host, k)
  {
    var texts := HEAD_TEXTS;
    assert texts[0] in texts && texts[1] in texts && texts[2] in texts && texts[3] in texts && texts[4] in texts
      && texts[5] in texts;
    var text := HeadText(head);
    assert text[0] == '(' ==> |text| > 1;
  }

  lemma TextOfHead(text: string) returns (head: Head)
    requires text in HEAD_TEXTS
    ensures HeadText(head) == text
  {
    head := if text == HEAD_TEXTS[0] then Group else if text == HEAD_TEXTS[1] then PlainGroup
      else if text == HEAD_TEXTS[2] then AfterDot else if text == HEAD_TEXTS[3] then PlusDot
      else if text == HEAD_TEXTS[4] then StarDot else Whole;
  }

  /** A rule made of one of the six texts, an escaped name and perhaps `$` is recognised, and the expression it stands
      for is found in exactly the hosts where the name occurs at a place that fits. */
  lemma RulesInFull(text: string, name: string, anchored: bool, host: string)
    requires text in HEAD_TEXTS && name != "" && IsName(name, false)
    ensures var found := Recognise(text + Escaped(name) + if anchored then "$" else "");
      && found.Some? && found.value.name == name && found.value.anchored == anchored
      && (Search(Meaning(found.value), host) <==>
        exists k: nat :: k <= |host| && PlaceFits(text, host, k) && NamedAt(host, name, anchored, k))
  {
    var head := TextOfHead(text);
    var shape := Shape(head, name, anchored);
    HeadTexts(head);
    hide HeadText, Search, Meaning, PlaceFits, HeadFits, Recognise, NamedAt, OccursAt, Lower, IsName, Escaped;
    RecogniseExact(Spelled(shape), shape);
    SearchFindsName(shape, host);
    forall k: nat | k <= |host|
      ensures Found(shape, host, k) <==> PlaceFits(text, host, k) && NamedAt(host, name, anchored, k)
    {
      NamedAtIs(host, name, anchored, k);
    }
  }
}
