/** Platforms, and the names under which a version for a platform is stored or archived. */
module Platforms {
  import opened Common
  import opened Decimal
  import opened Text
  import opened Versions

  datatype Platform = Platform(os: string, arch: string)

  const WILDCARD := "*"

  predicate PlatformMatches(p: Platform, q: Platform) {
    && (p.os == q.os || p.os == WILDCARD || q.os == WILDCARD)
    && (p.arch == q.arch || p.arch == WILDCARD || q.arch == WILDCARD)
  }

  predicate IsWildcard(p: Platform) {
    p.os == WILDCARD || p.arch == WILDCARD
  }

  /** The platforms a pattern stands for: each part that is not a wildcard is fixed. */
  ghost predicate Covers(p: Platform, c: Platform) {
    (p.os == WILDCARD || c.os == p.os) && (p.arch == WILDCARD || c.arch == p.arch)
  }

  /** Two patterns match exactly if some platform is covered by both; without wildcards, if they are the same. */
  lemma MatchesIffCommon(p: Platform, q: Platform)
    ensures PlatformMatches(p, q) <==> exists c :: Covers(p, c) && Covers(q, c)
    ensures !IsWildcard(p) && !IsWildcard(q) ==> (PlatformMatches(p, q) <==> p == q)
    ensures !IsWildcard(p) <==> forall c :: Covers(p, c) ==> c == p
  {
    if IsWildcard(p) {
      var c := Platform(if p.os == WILDCARD then "linux" else p.os, if p.arch == WILDCARD then "amd64" else p.arch);
      assert Covers(p, c) && c != p by {
        assert "linux"[0] != '*' && "amd64"[0] != '*';
      }
    }
    if PlatformMatches(p, q) {
      var c := Platform(if p.os == WILDCARD then q.os else p.os, if p.arch == WILDCARD then q.arch else p.arch);
      assert Covers(p, c) && Covers(q, c);
    }
  }

  predicate WordChar(c: char) {
    '0' <= c <= '9' || 'A' <= c <= 'Z' || 'a' <= c <= 'z' || c == '_'
  }

  predicate Word(s: string) {
    s != "" && forall i :: 0 <= i < |s| ==> WordChar(s[i])
  }

  function BaseName(p: Platform, v: Concrete): string {
    PrintConcrete(v) + "-" + p.os + "-" + p.arch
  }

  const ARCHIVE_PREFIX := "kubebuilder-tools-"
  const ARCHIVE_SUFFIX := ".tar.gz"

  function ArchiveName(p: Platform, v: Concrete): string {
    ARCHIVE_PREFIX + BaseName(p, v) + ARCHIVE_SUFFIX
  }

  datatype Extraction = NoName | NumberPanic | Found(version: Concrete, platform: Platform)

  function ConcreteFromText(s: string): Option<(string, string, string)> {
    match SplitNumbers(s)
    case Some((major, minor, Some(patch))) =>
      if Canonical(major) && Canonical(minor) && Canonical(patch) then Some((major, minor, patch)) else None
    case _ => None
  }

  /** ExtractWithPlatform for store directories. */
  function FromBaseName(name: string): Extraction {
    match Cut(name, '-')
    case None => NoName
    case Some((numbers, rest)) =>
      match Cut(rest, '-')
      case None => NoName
      case Some((os, arch)) =>
        if !Word(os) || !Word(arch) then NoName
        else
          match ConcreteFromText(numbers)
          case None => NoName
          case Some((major, minor, patch)) =>
            if Value(major) <= INT64_MAX && Value(minor) <= INT64_MAX && Value(patch) <= INT64_MAX
            then Found(Concrete(Value(major), Value(minor), Value(patch)), Platform(os, arch))
            else NumberPanic
  }

  /** ExtractWithPlatform for archives. */
  function FromArchiveName(name: string): Extraction {
    var p, q := |ARCHIVE_PREFIX|, |ARCHIVE_SUFFIX|;
    if |name| >= p + q && name[..p] == ARCHIVE_PREFIX && name[|name| - q..] == ARCHIVE_SUFFIX
    then FromBaseName(name[p..|name| - q]) else NoName
  }

  predicate GoodVersion(v: Concrete) {
    InRange(v.major) && InRange(v.minor) && InRange(v.patch)
  }

  predicate GoodPlatform(p: Platform) {
    Word(p.os) && Word(p.arch)
  }

  lemma NumbersOfConcrete(v: Concrete)
    requires GoodVersion(v)
    ensures ConcreteFromText(PrintConcrete(v)) == Some((Print(v.major), Print(v.minor), Print(v.patch)))
    ensures '-' !in PrintConcrete(v)
  {
    CanonicalNumbers(Print(v.major), Print(v.minor), Print(v.patch));
  }

  /** Every version and word-character platform is recovered from its directory name. */
  lemma BaseNameRoundTrip(p: Platform, v: Concrete)
    requires GoodPlatform(p) && GoodVersion(v)
    ensures FromBaseName(BaseName(p, v)) == Found(v, p)
  {
    NumbersOfConcrete(v);
    var rest := p.os + ['-'] + p.arch;
    assert BaseName(p, v) == PrintConcrete(v) + ['-'] + rest;
    CutJoined(PrintConcrete(v), '-', rest);
    CutJoined(p.os, '-', p.arch);
    ValueOfPrint(v.major);
    ValueOfPrint(v.minor);
    ValueOfPrint(v.patch);
  }

  lemma ArchiveNameRoundTrip(p: Platform, v: Concrete)
    requires GoodPlatform(p) && GoodVersion(v)
    ensures FromArchiveName(ArchiveName(p, v)) == Found(v, p)
  {
    var name, n, m := ArchiveName(p, v), |ARCHIVE_PREFIX|, |ARCHIVE_SUFFIX|;
    assert name[..n] == ARCHIVE_PREFIX && name[|name| - m..] == ARCHIVE_SUFFIX;
    assert name[n..|name| - m] == BaseName(p, v);
    BaseNameRoundTrip(p, v);
  }

  /** And a name that is read as a version and platform is their one directory name. */
  lemma BaseNameSound(name: string)
    requires FromBaseName(name).Found?
    ensures var f := FromBaseName(name);
            GoodVersion(f.version) && GoodPlatform(f.platform) && BaseName(f.platform, f.version) == name
  {
    var numbers, os, arch := NameParts(name);
    ConcreteTextSound(numbers);
    JoinedName(numbers, os, arch);
  }

  /** The parts of a name between its first two hyphens. */
  lemma NameParts(name: string) returns (numbers: string, os: string, arch: string)
    requires FromBaseName(name).Found?
    ensures name == numbers + ['-'] + (os + ['-'] + arch)
    ensures Cut(name, '-').Some? && Cut(name, '-').value.0 == numbers && ConcreteFromText(numbers).Some?
    ensures Cut(Cut(name, '-').value.1, '-') == Some((os, arch)) && Word(os) && Word(arch)
  {
    CutFinds(name, '-');
    numbers := Cut(name, '-').value.0;
    var rest := Cut(name, '-').value.1;
    CutFinds(rest, '-');
    os, arch := Cut(rest, '-').value.0, Cut(rest, '-').value.1;
  }

  lemma JoinedName(numbers: string, os: string, arch: string)
    ensures numbers + "-" + os + "-" + arch == numbers + ['-'] + (os + ['-'] + arch)
  {
  }

  /** The name of a version and platform, but for a number that is too large. */
  ghost predicate TooLarge(name: string, major: string, minor: string, patch: string, p: Platform) {
    && Canonical(major) && Canonical(minor) && Canonical(patch) && GoodPlatform(p)
    && (Value(major) > INT64_MAX || Value(minor) > INT64_MAX || Value(patch) > INT64_MAX)
    && name == major + "." + minor + "." + patch + "-" + p.os + "-" + p.arch
  }

  /** Reading a name panics exactly on such names. */
  lemma NumberPanicIff(name: string)
    ensures FromBaseName(name).NumberPanic? <==> exists major, minor, patch, p :: TooLarge(name, major, minor, patch, p)
  {
    if FromBaseName(name).NumberPanic? {
      var major, minor, patch, p := PanicParts(name);
    }
    if major, minor, patch, p :| TooLarge(name, major, minor, patch, p) {
      TooLargePanics(name, major, minor, patch, p);
    }
  }

  lemma PanicParts(name: string) returns (major: string, minor: string, patch: string, p: Platform)
    requires FromBaseName(name).NumberPanic?
    ensures TooLarge(name, major, minor, patch, p)
  {
    CutFinds(name, '-');
    var numbers, rest := Cut(name, '-').value.0, Cut(name, '-').value.1;
    CutFinds(rest, '-');
    p := Platform(Cut(rest, '-').value.0, Cut(rest, '-').value.1);
    var found := ConcreteFromText(numbers).value;
    major, minor, patch := found.0, found.1, found.2;
    SplitSound(numbers);
    assert numbers == major + "." + minor + "." + patch by {
      assert major + ['.'] + (minor + (['.'] + patch)) == major + "." + minor + "." + patch;
    }
    JoinedName(numbers, p.os, p.arch);
  }

  lemma TooLargePanics(name: string, major: string, minor: string, patch: string, p: Platform)
    requires TooLarge(name, major, minor, patch, p)
    ensures FromBaseName(name).NumberPanic?
  {
    var numbers := major + "." + minor + "." + patch;
    CanonicalNumbers(major, minor, patch);
    JoinedName(numbers, p.os, p.arch);
    CutJoined(numbers, '-', p.os + ['-'] + p.arch);
    CutJoined(p.os, '-', p.arch);
  }

  lemma CanonicalNumbers(major: string, minor: string, patch: string)
    requires Canonical(major) && Canonical(minor) && Canonical(patch)
    ensures var numbers := major + "." + minor + "." + patch;
            ConcreteFromText(numbers) == Some((major, minor, patch)) && '-' !in numbers
  {
    var g := Groups(NoMark, major, minor, Some(patch), false);
    assert Numbers(g) == major + "." + minor + "." + patch by {
      assert major + ['.'] + (minor + (['.'] + patch)) == major + "." + minor + "." + patch;
    }
    SplitRendered(g);
    CanonicalChars(major);
    CanonicalChars(minor);
    CanonicalChars(patch);
  }

  lemma ArchiveNameSound(name: string)
    requires FromArchiveName(name).Found?
    ensures var f := FromArchiveName(name);
            GoodVersion(f.version) && GoodPlatform(f.platform) && ArchiveName(f.platform, f.version) == name
  {
    var p, q := |ARCHIVE_PREFIX|, |ARCHIVE_SUFFIX|;
    BaseNameSound(name[p..|name| - q]);
    ThreeParts(name, p, |name| - q);
  }

  lemma ThreeParts(s: string, i: nat, j: nat)
    requires i <= j <= |s|
    ensures s == s[..i] + s[i..j] + s[j..]
  {
  }

  lemma ConcreteTextSound(s: string)
    requires ConcreteFromText(s).Some?
    ensures var (major, minor, patch) := ConcreteFromText(s).value;
            s == PrintConcrete(Concrete(Value(major), Value(minor), Value(patch)))
  {
    var (major, minor, patch) := ConcreteFromText(s).value;
    SplitSound(s);
    PrintOfValue(major);
    PrintOfValue(minor);
    PrintOfValue(patch);
    assert major + ['.'] + (minor + (['.'] + patch)) == major + "." + minor + "." + patch;
  }

  lemma SmallNumbers()
    ensures Print(1) == "1" && Print(16) == "16" && Print(0) == "0"
  {
    assert Print(16) == Print(1) + [DigitOf(6)];
  }

  /** Wildcards, separators and nothing at all are no words; letters, digits and underscores are. */
  lemma Words(s: string, c: char)
    ensures Word(s) ==> s != "" && '*' !in s && '-' !in s && '.' !in s && '/' !in s
    ensures Word([c]) <==> c in "0123456789_" || 'A' <= c <= 'Z' || 'a' <= c <= 'z'
  {
    var digits := "0123456789_";
    assert WordChar(c) ==> Word([c]);
    assert Word([c]) ==> WordChar([c][0]);
    if '0' <= c <= '9' {
      assert digits[(c - '0') as int] == c;
    } else if c == '_' {
      assert digits[10] == c;
    }
  }

  lemma KnownPlatform()
    ensures GoodPlatform(Platform("linux", "amd64"))
  {
  }

  /** The name of a directory in the store, read back. */
  lemma KnownName()
    ensures FromBaseName("1.16.0" + "-linux-amd64") == Found(Concrete(1, 16, 0), Platform("linux", "amd64"))
    ensures FromArchiveName("kubebuilder-tools-" + ("1.16.0" + "-linux-amd64") + ".tar.gz") ==
            Found(Concrete(1, 16, 0), Platform("linux", "amd64"))
  {
    var p, v := Platform("linux", "amd64"), Concrete(1, 16, 0);
    SmallNumbers();
    KnownPlatform();
    assert PrintConcrete(v) == "1.16.0";
    assert BaseName(p, v) == "1.16.0" + "-linux-amd64";
    BaseNameRoundTrip(p, v);
    ArchiveNameRoundTrip(p, v);
  }

  /** Directory names identify what they hold. */
  lemma BaseNamesAreInjective(p: Platform, v: Concrete, q: Platform, w: Concrete)
    requires GoodPlatform(p) && GoodVersion(v) && GoodPlatform(q) && GoodVersion(w)
    ensures BaseName(p, v) == BaseName(q, w) <==> p == q && v == w
    ensures ArchiveName(p, v) == ArchiveName(q, w) <==> p == q && v == w
  {
    BaseNameRoundTrip(p, v);
    BaseNameRoundTrip(q, w);
    ArchiveNameRoundTrip(p, v);
    ArchiveNameRoundTrip(q, w);
  }
}
