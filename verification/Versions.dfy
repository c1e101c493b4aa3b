/** Version selectors: what they match, how they print and how they are parsed. */
module Versions {
  import opened Common
  import opened Decimal
  import opened Text

  // ----- Versions and selectors -----

  datatype Concrete = Concrete(major: int, minor: int, patch: int)

  /** The wildcard among patch numbers. */
  const ANY_POINT: int := -1

  datatype Selector =
    | Exact(version: Concrete)
    | Patch(major: int, minor: int, patch: int)
    | Tilde(base: Concrete)
    | LessThan(major: int, minor: int, patch: int, orEquals: bool)
    | AnyVersion

  datatype Spec = Spec(selector: Selector, checkLatest: bool)

  predicate NewerThan(a: Concrete, b: Concrete) {
    if a.major != b.major then a.major > b.major
    else if a.minor != b.minor then a.minor > b.minor
    else a.patch > b.patch
  }

  predicate PointMatches(p: int, n: int) {
    p == ANY_POINT || p == n
  }

  predicate Matches(s: Selector, v: Concrete) {
    match s
    case Exact(w) => w == v
    case Patch(major, minor, patch) => major == v.major && minor == v.minor && PointMatches(patch, v.patch)
    case Tilde(w) => w == v || (v.major == w.major && v.minor == w.minor && v.patch >= w.patch)
    case LessThan(major, minor, patch, orEquals) =>
      if major != v.major then major > v.major
      else if minor != v.minor then minor > v.minor
      else if !PointMatches(patch, v.patch) then patch > v.patch
      else orEquals
    case AnyVersion => true
  }

  function AsConcrete(s: Selector): Option<Concrete> {
    match s
    case Exact(v) => Some(v)
    case Patch(major, minor, patch) => if patch == ANY_POINT then None else Some(Concrete(major, minor, patch))
    case _ => None
  }

  /** Newer-than is a strict total order on versions. */
  lemma NewerIsStrictTotalOrder(a: Concrete, b: Concrete, c: Concrete)
    ensures !NewerThan(a, a)
    ensures NewerThan(a, b) && NewerThan(b, c) ==> NewerThan(a, c)
    ensures NewerThan(a, b) || NewerThan(b, a) || a == b
    ensures !(NewerThan(a, b) && NewerThan(b, a))
  {
  }

  /** What each selector means in terms of that order, for versions with patch numbers from zero. */
  lemma SelectorMeaning(s: Selector, v: Concrete)
    requires v.patch >= 0
    ensures s.Tilde? && s.base.patch >= 0 ==>
              (Matches(s, v) <==> !NewerThan(s.base, v) && NewerThan(Concrete(s.base.major, s.base.minor + 1, 0), v))
    ensures s.LessThan? && s.patch >= 0 ==>
              (Matches(s, v) <==> NewerThan(Concrete(s.major, s.minor, s.patch), v)
                                  || (s.orEquals && Concrete(s.major, s.minor, s.patch) == v))
    ensures s.LessThan? && s.patch == ANY_POINT ==>
              (Matches(s, v) <==> NewerThan(Concrete(s.major, if s.orEquals then s.minor + 1 else s.minor, 0), v))
    ensures s.Patch? && s.patch == ANY_POINT ==>
              (Matches(s, v) <==> !NewerThan(Concrete(s.major, s.minor, 0), v)
                                  && NewerThan(Concrete(s.major, s.minor + 1, 0), v))
    ensures s.AnyVersion? ==> Matches(s, v)
  {
  }

  /** A selector that names one version matches just that one. */
  lemma ConcreteMatchesItself(s: Selector, v: Concrete)
    requires AsConcrete(s).Some?
    ensures Matches(s, v) <==> AsConcrete(s) == Some(v)
  {
  }

  ghost predicate MatchesOnly(s: Selector, v: Concrete) {
    forall w :: Matches(s, w) <==> w == v
  }

  /** A selector is concrete exactly if it matches one version only. */
  lemma ConcreteIff(s: Selector)
    ensures AsConcrete(s).Some? <==> exists v :: MatchesOnly(s, v)
  {
    if AsConcrete(s).Some? {
      forall v { ConcreteMatchesItself(s, v); }
      assert MatchesOnly(s, AsConcrete(s).value);
    } else {
      var v, w := TwoMatches(s);
    }
  }

  lemma TwoMatches(s: Selector) returns (v: Concrete, w: Concrete)
    requires AsConcrete(s).None?
    ensures v != w && Matches(s, v) && Matches(s, w)
  {
    match s
    case Patch(major, minor, _) => v, w := Concrete(major, minor, 0), Concrete(major, minor, 1);
    case Tilde(base) => v, w := base, base.(patch := base.patch + 1);
    case LessThan(major, _, _, _) => v, w := Concrete(major - 1, 0, 0), Concrete(major - 1, 0, 1);
    case AnyVersion => v, w := Concrete(0, 0, 0), Concrete(0, 0, 1);
  }

  class SpecHolder {
    var spec: Spec

    constructor (s: Spec)
      ensures spec == s
    {
      spec := s;
    }

    method MakeConcrete(v: Concrete)
      modifies this
      ensures AsConcrete(spec.selector) == Some(v) && !spec.checkLatest
      ensures forall w :: Matches(spec.selector, w) <==> w == v
    {
      spec := Spec(Exact(v), false);
    }
  }

  // ----- Printing -----

  function PrintInt(n: int): string {
    if n < 0 then "-" + Print(-n) else Print(n)
  }

  function PrintPoint(p: int): string {
    if p == ANY_POINT then "*" else PrintInt(p)
  }

  function PrintConcrete(v: Concrete): string {
    PrintInt(v.major) + "." + PrintInt(v.minor) + "." + PrintInt(v.patch)
  }

  function PrintPatch(major: int, minor: int, patch: int): string {
    PrintInt(major) + "." + PrintInt(minor) + "." + PrintPoint(patch)
  }

  function PrintSelector(s: Selector): string {
    match s
    case Exact(v) => PrintConcrete(v)
    case Patch(major, minor, patch) => PrintPatch(major, minor, patch)
    case Tilde(v) => "~" + PrintConcrete(v)
    case LessThan(major, minor, patch, orEquals) => (if orEquals then "<=" else "<") + PrintPatch(major, minor, patch)
    case AnyVersion => "*"
  }

  function PrintSpec(s: Spec): string {
    PrintSelector(s.selector) + if s.checkLatest then "!" else ""
  }

  // ----- The grammar of version expressions -----

  datatype Mark = NoMark | Less | LessOrEqual | About

  function MarkText(m: Mark): string {
    match m case NoMark => "" case Less => "<" case LessOrEqual => "<=" case About => "~"
  }

  /** The named groups of the regular expression for expressions. */
  datatype Groups = Groups(mark: Mark, major: string, minor: string, patch: Option<string>, latest: bool)

  predicate PatchText(p: string) {
    Canonical(p) || p == "x" || p == "*"
  }

  predicate GoodGroups(g: Groups) {
    Canonical(g.major) && Canonical(g.minor) && (g.patch.Some? ==> PatchText(g.patch.value))
  }

  function Numbers(g: Groups): string {
    g.major + ['.'] + (g.minor + if g.patch.Some? then ['.'] + g.patch.value else "")
  }

  /** The one text with the given groups. A string matches the regular expression when it is such a text. */
  function Render(g: Groups): string {
    MarkText(g.mark) + (Numbers(g) + if g.latest then "!" else "")
  }

  // ----- Matching -----

  function StripMark(s: string): (Mark, string) {
    if "<=" <= s then (LessOrEqual, s[2..])
    else if "<" <= s then (Less, s[1..])
    else if "~" <= s then (About, s[1..])
    else (NoMark, s)
  }

  function StripLatest(s: string): (string, bool) {
    if s != "" && s[|s| - 1] == '!' then (s[..|s| - 1], true) else (s, false)
  }

  /** Major, minor and an optional patch. */
  function SplitNumbers(s: string): Option<(string, string, Option<string>)> {
    match Cut(s, '.')
    case None => None
    case Some((major, rest)) =>
      match Cut(rest, '.')
      case None => Some((major, rest, None))
      case Some((minor, patch)) => Some((major, minor, Some(patch)))
  }

  function MatchExpr(s: string): Option<Groups> {
    var (mark, rest) := StripMark(s);
    var (numbers, latest) := StripLatest(rest);
    match SplitNumbers(numbers)
    case None => None
    case Some((major, minor, patch)) =>
      var g := Groups(mark, major, minor, patch, latest);
      if GoodGroups(g) then Some(g) else None
  }

  lemma CanonicalChars(s: string)
    requires Canonical(s)
    ensures '.' !in s && '!' !in s && '-' !in s && s != "" && IsDigit(s[0]) && IsDigit(s[|s| - 1])
  {
  }

  lemma SplitRendered(g: Groups)
    requires GoodGroups(g)
    ensures SplitNumbers(Numbers(g)) == Some((g.major, g.minor, g.patch))
  {
    var rest := g.minor + if g.patch.Some? then ['.'] + g.patch.value else "";
    CanonicalChars(g.major);
    CanonicalChars(g.minor);
    CutJoined(g.major, '.', rest);
    if g.patch.Some? {
      CutJoined(g.minor, '.', g.patch.value);
      assert rest == g.minor + ['.'] + g.patch.value;
    } else {
      assert rest == g.minor;
      CutFinds(rest, '.');
    }
  }

  lemma NumbersEnds(g: Groups)
    requires GoodGroups(g)
    ensures Numbers(g) != "" && IsDigit(Numbers(g)[0]) && Numbers(g)[|Numbers(g)| - 1] != '!'
  {
    CanonicalChars(g.major);
    CanonicalChars(g.minor);
    var n := Numbers(g);
    if g.patch.Some? {
      if Canonical(g.patch.value) {
        CanonicalChars(g.patch.value);
      }
      assert n[|n| - 1] == g.patch.value[|g.patch.value| - 1];
    } else {
      assert n[|n| - 1] == g.minor[|g.minor| - 1];
    }
  }

  lemma StripMarkOf(m: Mark, tail: string)
    requires tail != "" && IsDigit(tail[0])
    ensures StripMark(MarkText(m) + tail) == (m, tail)
  {
    var s := MarkText(m) + tail;
    match m
    case NoMark => assert s == tail && s[0] == tail[0];
    case Less => assert s[0] == '<' && s[1] == tail[0] && s[1..] == tail;
    case LessOrEqual => assert s[0] == '<' && s[1] == '=' && s[2..] == tail;
    case About => assert s[0] == '~' && s[1..] == tail;
  }

  lemma StripMarkSound(s: string)
    ensures MarkText(StripMark(s).0) + StripMark(s).1 == s
  {
  }

  lemma SplitSound(s: string)
    requires SplitNumbers(s).Some?
    ensures var (major, minor, patch) := SplitNumbers(s).value;
            Numbers(Groups(NoMark, major, minor, patch, false)) == s
  {
    CutFinds(s, '.');
    var after := Cut(s, '.').value.1;
    CutFinds(after, '.');
    var (major, minor, patch) := SplitNumbers(s).value;
    if patch.Some? {
      assert minor + (['.'] + patch.value) == after;
    } else {
      assert minor + "" == after;
    }
  }

  /** The matcher recovers the groups of every text of the language, which is therefore unambiguous. */
  lemma MatchComplete(g: Groups)
    requires GoodGroups(g)
    ensures MatchExpr(Render(g)) == Some(g)
  {
    var tail := Numbers(g) + if g.latest then "!" else "";
    NumbersEnds(g);
    assert tail[0] == Numbers(g)[0];
    StripMarkOf(g.mark, tail);
    if g.latest {
      assert tail[..|tail| - 1] == Numbers(g);
    } else {
      assert tail == Numbers(g);
    }
    SplitRendered(g);
  }

  /** And it accepts no other text. */
  lemma MatchSound(s: string)
    requires MatchExpr(s).Some?
    ensures GoodGroups(MatchExpr(s).value) && Render(MatchExpr(s).value) == s
  {
    var (mark, rest) := StripMark(s);
    var (numbers, latest) := StripLatest(rest);
    StripMarkSound(s);
    SplitSound(numbers);
    assert rest == numbers + if latest then "!" else "";
  }

  // ----- Parsing -----

  datatype ParseError = NoMatch | Panic

  /** A point number; None when it does not fit the source's 64-bit integers. */
  function PointFromText(s: string): Option<int>
    requires PatchText(s)
  {
    if s == "*" || s == "x" then Some(ANY_POINT)
    else if Value(s) <= INT64_MAX then Some(Value(s)) else None
  }

  function PatchFromGroups(g: Groups): Option<Selector>
    requires GoodGroups(g)
  {
    var patch := if g.patch.Some? then PointFromText(g.patch.value) else Some(ANY_POINT);
    if Value(g.major) <= INT64_MAX && Value(g.minor) <= INT64_MAX && patch.Some?
    then Some(Patch(Value(g.major), Value(g.minor), patch.value)) else None
  }

  function SelectorFor(m: Mark, p: Selector): Selector
    requires p.Patch?
  {
    match m
    case NoMark => p
    case Less => LessThan(p.major, p.minor, p.patch, false)
    case LessOrEqual => LessThan(p.major, p.minor, p.patch, true)
    case About => Tilde(Concrete(p.major, p.minor, if p.patch == ANY_POINT then 0 else p.patch))
  }

  function FromExpr(s: string): Result<Spec, ParseError> {
    match MatchExpr(s)
    case None => Err(NoMatch)
    case Some(g) =>
      match PatchFromGroups(g)
      case None => Err(Panic)
      case Some(p) => Ok(Spec(SelectorFor(g.mark, p), g.latest))
  }

  predicate InRange(n: int) {
    0 <= n <= INT64_MAX
  }

  /** The selectors that expressions denote. */
  predicate Parsed(s: Selector) {
    match s
    case Patch(major, minor, patch) => InRange(major) && InRange(minor) && (patch == ANY_POINT || InRange(patch))
    case LessThan(major, minor, patch, _) => InRange(major) && InRange(minor) && (patch == ANY_POINT || InRange(patch))
    case Tilde(v) => InRange(v.major) && InRange(v.minor) && InRange(v.patch)
    case _ => false
  }

  lemma ParsedByExpr(s: string)
    requires FromExpr(s).Ok?
    ensures Parsed(FromExpr(s).value.selector)
  {
  }

  function GroupsFor(m: Mark, major: int, minor: int, patch: int, latest: bool): Groups
    requires major >= 0 && minor >= 0
  {
    Groups(m, Print(major), Print(minor), Some(PrintPoint(patch)), latest)
  }

  /** Expressions are accepted exactly when they are texts of the grammar with numbers in range. */
  lemma AcceptedIff(s: string)
    ensures FromExpr(s).Ok? <==>
            exists g :: GoodGroups(g) && Render(g) == s && PatchFromGroups(g).Some?
  {
    if FromExpr(s).Ok? {
      MatchSound(s);
    }
    if g :| GoodGroups(g) && Render(g) == s && PatchFromGroups(g).Some? {
      MatchComplete(g);
    }
  }

  lemma ParsePrinted(m: Mark, major: int, minor: int, patch: int, latest: bool)
    requires InRange(major) && InRange(minor) && (patch == ANY_POINT || InRange(patch))
    ensures FromExpr(Render(GroupsFor(m, major, minor, patch, latest))) ==
            Ok(Spec(SelectorFor(m, Patch(major, minor, patch)), latest))
  {
    var g := GroupsFor(m, major, minor, patch, latest);
    PrintedGroups(m, major, minor, patch, latest);
    MatchComplete(g);
  }

  lemma PrintedPoint(patch: int)
    requires patch == ANY_POINT || InRange(patch)
    ensures PatchText(PrintPoint(patch)) && PointFromText(PrintPoint(patch)) == Some(patch)
  {
    if patch != ANY_POINT {
      ValueOfPrint(patch);
      assert Print(patch)[0] != '*' && Print(patch)[0] != 'x';
    }
  }

  lemma PrintedGroups(m: Mark, major: int, minor: int, patch: int, latest: bool)
    requires InRange(major) && InRange(minor) && (patch == ANY_POINT || InRange(patch))
    ensures var g := GroupsFor(m, major, minor, patch, latest);
            GoodGroups(g) && PatchFromGroups(g) == Some(Patch(major, minor, patch))
  {
    ValueOfPrint(major);
    ValueOfPrint(minor);
    PrintedPoint(patch);
  }

  lemma ParsePrintedText(m: Mark, major: int, minor: int, patch: int, latest: bool)
    requires InRange(major) && InRange(minor) && (patch == ANY_POINT || InRange(patch))
    ensures FromExpr(MarkText(m) + PrintPatch(major, minor, patch) + if latest then "!" else "") ==
            Ok(Spec(SelectorFor(m, Patch(major, minor, patch)), latest))
  {
    ParsePrinted(m, major, minor, patch, latest);
    RenderPrinted(m, major, minor, patch, latest);
  }

  lemma RenderPrinted(m: Mark, major: int, minor: int, patch: int, latest: bool)
    requires major >= 0 && minor >= 0
    ensures Render(GroupsFor(m, major, minor, patch, latest)) ==
            MarkText(m) + PrintPatch(major, minor, patch) + if latest then "!" else ""
  {
    var a, b, c, end := Print(major), Print(minor), PrintPoint(patch), if latest then "!" else "";
    assert a + ['.'] + (b + (['.'] + c)) == a + "." + b + "." + c;
    var numbers := a + "." + b + "." + c;
    assert MarkText(m) + (numbers + end) == MarkText(m) + numbers + end;
  }

  // ----- What expressions select -----

  /** The expression denotes a selector, with or without the check for the latest, and the version is selected. */
  ghost predicate Selects(s: string, latest: bool, v: Concrete) {
    FromExpr(s).Ok? && FromExpr(s).value.checkLatest == latest && Matches(FromExpr(s).value.selector, v)
  }

  /** How the patch part is written when any is meant. */
  predicate AnyPatchText(text: string) {
    text == "" || text == ".x" || text == ".*"
  }

  function Expression(mark: string, numbers: string, latest: bool): string {
    mark + numbers + if latest then "!" else ""
  }

  function AnyPatch(major: int, minor: int, text: string): string
    requires InRange(major) && InRange(minor)
  {
    Print(major) + "." + Print(minor) + text
  }

  lemma AnyPatchGroups(m: Mark, major: int, minor: int, text: string, latest: bool) returns (g: Groups)
    requires InRange(major) && InRange(minor) && AnyPatchText(text)
    ensures GoodGroups(g) && PatchFromGroups(g) == Some(Patch(major, minor, ANY_POINT))
    ensures g.mark == m && g.latest == latest && Numbers(g) == AnyPatch(major, minor, text)
  {
    g := Groups(m, Print(major), Print(minor), if text == "" then None else Some(text[1..]), latest);
    ValueOfPrint(major);
    ValueOfPrint(minor);
    if text != "" {
      assert text == ['.'] + text[1..];
      assert text[1..] == if text == ".x" then "x" else "*";
    }
    JoinNumbers(g.major, g.minor, text);
  }

  lemma JoinNumbers(a: string, b: string, c: string)
    ensures a + ['.'] + (b + c) == a + "." + b + c
  {
  }

  lemma ParseAnyPatch(m: Mark, major: int, minor: int, text: string, latest: bool)
    requires InRange(major) && InRange(minor) && AnyPatchText(text)
    ensures FromExpr(Expression(MarkText(m), AnyPatch(major, minor, text), latest)) ==
            Ok(Spec(SelectorFor(m, Patch(major, minor, ANY_POINT)), latest))
  {
    var g := AnyPatchGroups(m, major, minor, text, latest);
    MatchComplete(g);
    var a, b, c := MarkText(m), Numbers(g), if latest then "!" else "";
    assert a + (b + c) == a + b + c;
  }

  lemma AnyPatchMatches(m: Mark, major: int, minor: int, text: string, latest: bool, v: Concrete)
    requires InRange(major) && InRange(minor) && AnyPatchText(text)
    ensures Selects(Expression(MarkText(m), AnyPatch(major, minor, text), latest), latest, v) <==>
            Matches(SelectorFor(m, Patch(major, minor, ANY_POINT)), v)
  {
    ParseAnyPatch(m, major, minor, text, latest);
  }

  lemma PatchMatches(m: Mark, w: Concrete, latest: bool, v: Concrete)
    requires InRange(w.major) && InRange(w.minor) && InRange(w.patch)
    ensures Selects(Expression(MarkText(m), PrintPatch(w.major, w.minor, w.patch), latest), latest, v) <==>
            Matches(SelectorFor(m, Patch(w.major, w.minor, w.patch)), v)
  {
    ParsePrintedText(m, w.major, w.minor, w.patch, latest);
  }

  lemma Marks()
    ensures MarkText(NoMark) == "" && MarkText(About) == "~" && MarkText(Less) == "<" && MarkText(LessOrEqual) == "<="
  {
  }

  /** With the patch left off or wild, an expression selects by major and minor number alone. */
  lemma AnyPatchSelects(major: int, minor: int, text: string, latest: bool, v: Concrete)
    requires InRange(major) && InRange(minor) && AnyPatchText(text)
    ensures var numbers := AnyPatch(major, minor, text);
            && (Selects(Expression("", numbers, latest), latest, v) <==> v.major == major && v.minor == minor)
            && (Selects(Expression("~", numbers, latest), latest, v) <==>
                v.major == major && v.minor == minor && v.patch >= 0)
            && (Selects(Expression("<", numbers, latest), latest, v) <==>
                v.major < major || (v.major == major && v.minor < minor))
            && (Selects(Expression("<=", numbers, latest), latest, v) <==>
                v.major < major || (v.major == major && v.minor <= minor))
  {
    Marks();
    AnyPatchMatches(NoMark, major, minor, text, latest, v);
    AnyPatchMatches(About, major, minor, text, latest, v);
    AnyPatchMatches(Less, major, minor, text, latest, v);
    AnyPatchMatches(LessOrEqual, major, minor, text, latest, v);
  }

  /** With a patch number, it selects that version, or the later patches, or what is older. */
  lemma PatchSelects(w: Concrete, latest: bool, v: Concrete)
    requires InRange(w.major) && InRange(w.minor) && InRange(w.patch)
    ensures var numbers := PrintPatch(w.major, w.minor, w.patch);
            && (Selects(Expression("", numbers, latest), latest, v) <==> v == w)
            && (Selects(Expression("~", numbers, latest), latest, v) <==>
                v.major == w.major && v.minor == w.minor && v.patch >= w.patch)
            && (Selects(Expression("<", numbers, latest), latest, v) <==> NewerThan(w, v))
            && (Selects(Expression("<=", numbers, latest), latest, v) <==> !NewerThan(v, w))
  {
    Marks();
    PatchMatches(NoMark, w, latest, v);
    PatchMatches(About, w, latest, v);
    PatchMatches(Less, w, latest, v);
    PatchMatches(LessOrEqual, w, latest, v);
  }

  /** Printing what an expression denotes and parsing that again gives the same spec. */
  lemma PrintParseRoundTrip(s: string)
    requires FromExpr(s).Ok?
    ensures FromExpr(PrintSpec(FromExpr(s).value)) == FromExpr(s)
  {
    ParsedByExpr(s);
    RoundTripParsed(FromExpr(s).value);
  }

  function MarkOf(s: Selector): Mark {
    match s
    case Tilde(_) => About
    case LessThan(_, _, _, orEquals) => if orEquals then LessOrEqual else Less
    case _ => NoMark
  }

  /** Every parsed selector, read as a marked patch selector. */
  function Unmarked(s: Selector): Selector
    requires Parsed(s)
  {
    match s
    case Patch(_, _, _) => s
    case LessThan(major, minor, patch, _) => Patch(major, minor, patch)
    case Tilde(v) => Patch(v.major, v.minor, v.patch)
  }

  lemma PrintedAsMarked(s: Selector)
    requires Parsed(s)
    ensures var p := Unmarked(s);
            PrintSelector(s) == MarkText(MarkOf(s)) + PrintPatch(p.major, p.minor, p.patch)
            && SelectorFor(MarkOf(s), p) == s
  {
  }

  lemma RoundTripParsed(spec: Spec)
    requires Parsed(spec.selector)
    ensures FromExpr(PrintSpec(spec)) == Ok(spec)
  {
    var p := Unmarked(spec.selector);
    PrintedAsMarked(spec.selector);
    ParsePrintedText(MarkOf(spec.selector), p.major, p.minor, p.patch, spec.checkLatest);
  }
}
