/** What lower-casing an expression does to the character classes `\d`, `\w`, `\s` and their complements. */
module CharacterClasses {
  import opened Prelude
  import opened DomainNames
  import opened HostPatterns

  /** A letter that stands for itself (a dot is written escaped), or the class an escaped letter names. */
  datatype Atom = Letter(c: char) | Class(kind: char)

  datatype Pattern = Pattern(atoms: seq<Atom>, anchored: bool)

  predicate IsAtom(a: Atom) {
    match a
    case Letter(c) => WordChar(c) || c == '.'
    case Class(kind) => kind in "dDwWsS"
  }

  predicate IsPattern(p: Pattern) {
    forall a <- p.atoms :: IsAtom(a)
  }

  function AtomText(a: Atom): string {
    match a
    case Letter(c) => if c == '.' then "\\." else [c]
    case Class(kind) => ['\\', kind]
  }

  function AtomsText(atoms: seq<Atom>): string {
    if atoms == [] then "" else AtomText(atoms[0]) + AtomsText(atoms[1..])
  }

  /** The pattern as it is written. */
  function PatternText(p: Pattern): string {
    AtomsText(p.atoms) + if p.anchored then "$" else ""
  }

  predicate ClassHas(kind: char, c: char) {
    var digit, blank := '0' <= c <= '9', '\t' <= c <= '\r' || c == ' ';
    var word := 'a' <= c <= 'z' || 'A' <= c <= 'Z' || digit || c == '_';
    match kind
    case 'd' => digit
    case 'D' => !digit
    case 'w' => word
    case 'W' => !word
    case 's' => blank
    case _ => !blank
  }

  /** The classes by code points. */
  lemma ClassesAre(c: char)
    ensures ClassHas('d', c) <==> 48 <= c as int <= 57
    ensures ClassHas('w', c) <==>
      48 <= c as int <= 57 || 65 <= c as int <= 90 || c as int == 95 || 97 <= c as int <= 122
    ensures ClassHas('s', c) <==> 9 <= c as int <= 13 || c as int == 32
    ensures ClassHas('D', c) != ClassHas('d', c)
    ensures ClassHas('W', c) != ClassHas('w', c)
    ensures ClassHas('S', c) != ClassHas('s', c)
  {
  }

  predicate AtomHas(a: Atom, c: char, ignoreCase: bool) {
    match a
    case Letter(l) => c == l || (ignoreCase && LowerChar(c) == LowerChar(l))
    case Class(kind) => ClassHas(kind, c)
  }

  predicate FoundAt(p: Pattern, host: string, k: nat, ignoreCase: bool) {
    && k + |p.atoms| <= |host| && (p.anchored ==> k + |p.atoms| == |host|)
    && forall i | 0 <= i < |p.atoms| :: AtomHas(p.atoms[i], host[k + i], ignoreCase)
  }

  /** Unanchored search. */
  predicate Occurs(p: Pattern, host: string, ignoreCase: bool) {
    exists k :: 0 <= k <= |host| && FoundAt(p, host, k, ignoreCase)
  }

  function LowerAtom(a: Atom): Atom {
    match a
    case Letter(c) => Letter(LowerChar(c))
    case Class(kind) => Class(LowerChar(kind))
  }

  function LowerPattern(p: Pattern): (q: Pattern)
    ensures |q.atoms| == |p.atoms| && q.anchored == p.anchored
    ensures forall i | 0 <= i < |p.atoms| :: q.atoms[i] == LowerAtom(p.atoms[i])
  {
    Pattern(seq(|p.atoms|, i requires 0 <= i < |p.atoms| => LowerAtom(p.atoms[i])), p.anchored)
  }

  lemma LowerAppend(s: string, t: string)
    ensures Lower(s + t) == Lower(s) + Lower(t)
  {
  }

  lemma LowerAtomText(a: Atom)
    ensures Lower(AtomText(a)) == AtomText(LowerAtom(a))
  {
    assert LowerChar('\\') == '\\' && LowerChar('.') == '.';
    match a
    case Letter(c) => assert c != '.' ==> LowerChar(c) != '.';
    case Class(_) =>
  }

  lemma {:induction false} LowerAtomsText(p: Pattern)
    ensures Lower(AtomsText(p.atoms)) == AtomsText(LowerPattern(p).atoms)
    decreases |p.atoms|
  {
    hide AtomText, LowerAtom, LowerChar;
    if p.atoms == [] {
      assert Lower("") == "";
    } else {
      hide Lower;
      var rest := Pattern(p.atoms[1..], p.anchored);
      LowerAtomsText(rest);
      LowerAtomText(p.atoms[0]);
      LowerAppend(AtomText(p.atoms[0]), AtomsText(p.atoms[1..]));
      assert LowerPattern(p).atoms[1..] == LowerPattern(rest).atoms;
    }
  }

  /** Lower-casing the text gives the text of the lower-cased pattern. */
  lemma LowerPatternText(p: Pattern)
    ensures Lower(PatternText(p)) == PatternText(LowerPattern(p))
  {
    LowerAtomsText(p);
    LowerAppend(AtomsText(p.atoms), if p.anchored then "$" else "");
    assert Lower("$") == "$" && Lower("") == "";
  }

  // ------------------------------------------------------------------ when lower-casing keeps the meaning

  predicate IsLower(s: string) {
    forall i | 0 <= i < |s| :: LowerChar(s[i]) == s[i]
  }

  /** No class is written with a capital, nor any letter unless case is ignored. */
  predicate LowersWell(p: Pattern, ignoreCase: bool) {
    forall a <- p.atoms :: AtomLowersWell(a, ignoreCase)
  }

  predicate AtomLowersWell(a: Atom, ignoreCase: bool) {
    match a
    case Letter(c) => ignoreCase || LowerChar(c) == c
    case Class(kind) => LowerChar(kind) == kind
  }

  lemma AtomKept(a: Atom, c: char, ignoreCase: bool)
    requires AtomLowersWell(a, ignoreCase) && LowerChar(c) == c
    ensures AtomHas(a, c, ignoreCase) <==> AtomHas(LowerAtom(a), c, false)
  {
  }

  /** A lower-case character the lower-cased atom has, but the atom does not if its case matters. */
  function Sample(a: Atom): (c: char)
    requires IsAtom(a)
    ensures LowerChar(c) == c && AtomHas(LowerAtom(a), c, false)
    ensures forall ignoreCase: bool :: AtomHas(a, c, ignoreCase) <==> AtomLowersWell(a, ignoreCase)
  {
    match a
    case Letter(c) => LowerChar(c)
    case Class(kind) => if LowerChar(kind) == 'd' then '0' else if LowerChar(kind) == 'w' then 'a' else ' '
  }

  /** The host that spells the lower-cased pattern, one sample for each atom. */
  function SampleHost(p: Pattern): (host: string)
    requires IsPattern(p)
    ensures |host| == |p.atoms| && IsLower(host)
    ensures forall i | 0 <= i < |p.atoms| :: host[i] == Sample(p.atoms[i])
  {
    seq(|p.atoms|, i requires 0 <= i < |p.atoms| => Sample(p.atoms[i]))
  }

  lemma SampleTells(p: Pattern, ignoreCase: bool)
    requires IsPattern(p)
    ensures Occurs(LowerPattern(p), SampleHost(p), false)
    ensures Occurs(p, SampleHost(p), ignoreCase) ==> LowersWell(p, ignoreCase)
  {
    var host := SampleHost(p);
    assert FoundAt(LowerPattern(p), host, 0, false);
    if Occurs(p, host, ignoreCase) {
      forall i | 0 <= i < |p.atoms|
        ensures AtomLowersWell(p.atoms[i], ignoreCase)
      {
        assert FoundAt(p, host, 0, ignoreCase);
        assert AtomHas(p.atoms[i], host[0 + i], ignoreCase);
      }
    }
  }

  lemma OccursAlike(p: Pattern, host: string, ignoreCase: bool)
    requires LowersWell(p, ignoreCase) && IsLower(host)
    ensures Occurs(p, host, ignoreCase) <==> Occurs(LowerPattern(p), host, false)
  {
    hide AtomHas, LowerAtom, AtomLowersWell, LowerChar;
    forall k | 0 <= k <= |host|
      ensures FoundAt(p, host, k, ignoreCase) <==> FoundAt(LowerPattern(p), host, k, false)
    {
      if k + |p.atoms| <= |host| {
        forall i | 0 <= i < |p.atoms|
          ensures AtomHas(p.atoms[i], host[k + i], ignoreCase) <==>
            AtomHas(LowerPattern(p).atoms[i], host[k + i], false)
        {
          assert AtomLowersWell(p.atoms[i], ignoreCase);
          AtomKept(p.atoms[i], host[k + i], ignoreCase);
        }
      }
    }
  }

  /** The library reads patterns as described. */
  ghost predicate ReadsPatterns(search: Matcher, ignoreCase: bool) {
    forall p, host | IsPattern(p) :: search(PatternText(p), host) <==> Occurs(p, host, ignoreCase)
  }

  /** Lower-casing a pattern keeps what it says of every lower-case host exactly when it has no capital class
      and, if case is not ignored, no capital letter. */
  lemma LoweringKeepsIff(search: Matcher, written: Matcher, p: Pattern, ignoreCase: bool)
    requires ReadsPatterns(search, false) && ReadsPatterns(written, ignoreCase) && IsPattern(p)
    ensures (forall host | IsLower(host) :: written(PatternText(p), host) <==> search(Lower(PatternText(p)), host))
       <==> LowersWell(p, ignoreCase)
  {
    LowerPatternText(p);
    LoweredIsPattern(p);
    hide PatternText, Occurs, LowersWell, IsPattern, LowerPattern, IsLower;
    assert forall host :: written(PatternText(p), host) <==> Occurs(p, host, ignoreCase);
    assert forall host :: search(Lower(PatternText(p)), host) <==> Occurs(LowerPattern(p), host, false);
    if LowersWell(p, ignoreCase) {
      forall host | IsLower(host)
        ensures written(PatternText(p), host) <==> search(Lower(PatternText(p)), host)
      {
        OccursAlike(p, host, ignoreCase);
      }
    } else {
      SampleTells(p, ignoreCase);
      assert IsLower(SampleHost(p));
    }
  }

  lemma LoweredIsPattern(p: Pattern)
    requires IsPattern(p)
    ensures IsPattern(LowerPattern(p))
  {
    forall i | 0 <= i < |p.atoms|
      ensures IsAtom(LowerPattern(p).atoms[i])
    {
      assert IsAtom(p.atoms[i]);
    }
  }

  /** `\Dads$` means a character that is no digit before the name; what is stored wants a digit there. */
  function CapitalClass(): (p: Pattern)
    ensures IsPattern(p) && |p.atoms| == 4
  {
    Pattern([Class('D'), Letter('a'), Letter('d'), Letter('s')], true)
  }

  lemma CapitalClassText()
    ensures PatternText(CapitalClass()) == "\\Dads$"
  {
    var atoms := CapitalClass().atoms;
    assert atoms[3..] == [Letter('s')] && atoms[2..][1..] == atoms[3..] && atoms[1..][1..] == atoms[2..];
    assert AtomsText(atoms[3..]) == "s";
    assert AtomsText(atoms[2..]) == "ds";
    assert AtomsText(atoms[1..]) == "ads";
  }

  lemma CapitalClassOccurs(ignoreCase: bool)
    ensures Occurs(CapitalClass(), "xads", ignoreCase)
    ensures !Occurs(LowerPattern(CapitalClass()), "xads", false)
  {
    var p := CapitalClass();
    assert FoundAt(p, "xads", 0, ignoreCase);
    assert !AtomHas(LowerPattern(p).atoms[0], 'x', false);
    assert forall k | 0 < k <= 4 :: !FoundAt(LowerPattern(p), "xads", k, false);
  }

  /** The expression `\Dads$` matches `xads`; what the loader stores does not. */
  lemma CapitalClassDiffers(search: Matcher, written: Matcher, ignoreCase: bool)
    requires ReadsPatterns(search, false) && ReadsPatterns(written, ignoreCase)
    ensures Recognise("\\Dads$").None?
    ensures written("\\Dads$", "xads") && !search(Lower("\\Dads$"), "xads")
  {
    NotRecognised("\\Dads$");
    var p := CapitalClass();
    CapitalClassText();
    LowerPatternText(p);
    LoweredIsPattern(p);
    CapitalClassOccurs(ignoreCase);
    hide PatternText, Occurs, CapitalClass, IsPattern, LowerPattern, Recognise;
  }

  lemma NotRecognised(rule: string)
    requires |rule| > 1 && rule[0] == '\\' && rule[1] != '.'
    ensures Recognise(rule).None?
  {
    forall head: Head
      ensures ReadAfter(head, rule).None?
    {
      HeadStarts(head, rule);
    }
  }

  lemma HeadStarts(head: Head, rule: string)
    requires |rule| > 1 && rule[0] == '\\' && rule[1] != '.'
    ensures !(HeadText(head) <= rule)
  {
    var text := HeadText(head);
    assert text[0] != '\\' || text[1] == '.';
  }
}
