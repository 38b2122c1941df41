/**
 * The update checker's version handling: the SemVer-like parser (an
 * optional `v`, a core of one to three numbers, optional prerelease
 * identifiers, ignored build metadata, surrounding whitespace), the
 * three-way comparison, and the update check that compares the published
 * version with the installed one.
 *
 * Reading `version.txt` and fetching the remote version are parameters: the
 * file text (or nothing when it cannot be read), and the fetched text or the
 * message of the exception the request raised.
 */
module Semver {
  import opened Wrappers
  import opened Strings

  /** A parsed version: the numeric core and the prerelease identifiers, if any. */
  datatype Version = Version(major: nat, minor: nat, patch: nat, pre: Option<seq<string>>)

  // ---------------------------------------------------------------------
  // Parsing
  // ---------------------------------------------------------------------

  /** A character of `[0-9A-Za-z-]`. */
  predicate IdChar(c: char) {
    IsDigit(c) || IsAsciiLetter(c) || c == '-'
  }

  /** One prerelease or build identifier: `[0-9A-Za-z-]+`. */
  predicate IsIdentifier(w: string) {
    |w| > 0 && forall i :: 0 <= i < |w| ==> IdChar(w[i])
  }

  /** `str.isdigit()` on an identifier, whose characters are all ASCII. */
  predicate AllDigits(w: string) {
    |w| > 0 && forall i :: 0 <= i < |w| ==> IsDigit(w[i])
  }

  /** A core number: `0|[1-9]\d*`. */
  predicate IsNumericId(w: string) {
    AllDigits(w) && (w[0] != '0' || w == "0")
  }

  /** The text before the first `c`, and the text after it when there is one. */
  function Cut(w: string, c: char): (r: (string, Option<string>))
    ensures r.1.None? ==> r.0 == w && c !in w
    ensures r.1.Some? ==> w == r.0 + [c] + r.1.value && c !in r.0
  {
    if |w| == 0 then ("", None)
    else if w[0] == c then
      assert w == [] + [c] + w[1..];
      ("", Some(w[1..]))
    else
      var rest := Cut(w[1..], c);
      assert w == [w[0]] + w[1..];
      ([w[0]] + rest.0, rest.1)
  }

  /** Identifiers separated by dots: `[0-9A-Za-z-]+(?:\.[0-9A-Za-z-]+)*`. */
  function Dotted(w: string): (r: Option<seq<string>>)
    ensures r.Some? ==> |r.value| >= 1 && forall k :: 0 <= k < |r.value| ==> IsIdentifier(r.value[k])
  {
    var parts := Split(w, '.');
    if forall k :: 0 <= k < |parts| ==> IsIdentifier(parts[k]) then Some(parts) else None
  }

  function Number(w: string): Option<nat> {
    if IsNumericId(w) then Some(DigitsValue(w)) else None
  }

  /** One to three dot-separated numbers; a missing minor or patch is 0. */
  function ParseCore(w: string): Option<(nat, nat, nat)> {
    var parts := Split(w, '.');
    if |parts| > 3 || exists k :: 0 <= k < |parts| && Number(parts[k]).None? then None
    else
      Some((Number(parts[0]).value,
            if |parts| > 1 then Number(parts[1]).value else 0,
            if |parts| > 2 then Number(parts[2]).value else 0))
  }

  /** What the groups of the pattern see: the stripped text without one leading `v`. */
  function Body(s: string): string {
    var t := Strip(s);
    if |t| > 0 && t[0] == 'v' then t[1..] else t
  }

  /** The core and the prerelease, the text before any `+`. */
  function ParseMain(main: string): Option<Version> {
    var (core, pre) := Cut(main, '-');
    match ParseCore(core)
    case None => None
    case Some(n) =>
      if pre.Some? && Dotted(pre.value).None? then None
      else Some(Version(n.0, n.1, n.2, if pre.Some? then Dotted(pre.value) else None))
  }

  /** `_parse_semver`: the version, or nothing where the source raises `ValueError`. */
  function ParseVersion(s: string): Option<Version> {
    var (main, build) := Cut(Body(s), '+');
    if build.Some? && Dotted(build.value).None? then None else ParseMain(main)
  }

  // ---------------------------------------------------------------------
  // Comparison
  // ---------------------------------------------------------------------

  function CompareNat(a: int, b: int): int {
    if a < b then -1 else if a == b then 0 else 1
  }

  /** The cores as tuples: major, then minor, then patch. */
  function CompareCore(x: Version, y: Version): int {
    if x.major != y.major then CompareNat(x.major, y.major)
    else if x.minor != y.minor then CompareNat(x.minor, y.minor)
    else CompareNat(x.patch, y.patch)
  }

  /** One pair of prerelease identifiers. */
  function CompareId(a: string, b: string): int {
    if AllDigits(a) && AllDigits(b) then CompareNat(DigitsValue(a), DigitsValue(b))
    else if AllDigits(a) != AllDigits(b) then (if AllDigits(a) then -1 else 1)
    else if a == b then 0
    else if Less(a, b) then -1 else 1
  }

  /** The zipped identifiers in order; when one list runs out, the shorter ranks lower. */
  function CompareIds(a: seq<string>, b: seq<string>): int
    decreases |a|
  {
    if |a| == 0 || |b| == 0 then CompareNat(|a|, |b|)
    else if CompareId(a[0], b[0]) != 0 then CompareId(a[0], b[0])
    else CompareIds(a[1..], b[1..])
  }

  /** `compare_versions` on parsed versions. */
  function CompareVersions(x: Version, y: Version): int {
    if CompareCore(x, y) != 0 then CompareCore(x, y)
    else if x.pre.None? && y.pre.None? then 0
    else if x.pre.None? then 1
    else if y.pre.None? then -1
    else CompareIds(x.pre.value, y.pre.value)
  }

  /** The message of the `ValueError` for an unparseable version; quotes are not escaped. */
  function FormatError(s: string): string {
    "Unsupported version format: '" + s + "'"
  }

  /** `compare_versions(a, b)`: `a` is parsed first, so its error is the one raised. */
  function Compare(a: string, b: string): (r: Result<int, string>)
    ensures r.Success? <==> ParseVersion(a).Some? && ParseVersion(b).Some?
    ensures r.Success? ==> r.value in {-1, 0, 1}
    ensures ParseVersion(a).None? ==> r == Failure(FormatError(a))
    ensures ParseVersion(a).Some? && ParseVersion(b).None? ==> r == Failure(FormatError(b))
  {
    match ParseVersion(a)
    case None => Failure(FormatError(a))
    case Some(x) =>
      match ParseVersion(b)
      case None => Failure(FormatError(b))
      case Some(y) =>
        CompareRange(x, y);
        Success(CompareVersions(x, y))
  }

  // ---------------------------------------------------------------------
  // The update check
  // ---------------------------------------------------------------------

  datatype UpdateCheckResult = UpdateCheckResult(
    localVersion: string,
    remoteVersion: Option<string>,
    updateAvailable: bool,
    error: Option<string>)

  /** How reading `version.txt` as UTF-8 ends: its text, an `OSError`, or a `UnicodeDecodeError`. */
  datatype FileRead = Text(text: string) | OsError | DecodeError

  /**
   * `read_local_version`: the stripped file text, or "unknown" when the read
   * raises an `OSError` (a missing file among them). A decode error is not
   * caught and raises.
   */
  function ReadLocalVersion(file: FileRead): (r: Result<string, string>)
    ensures r.Failure? <==> file.DecodeError?
    ensures file.OsError? ==> r == Success("unknown")
    ensures file.Text? ==> r == Success(Strip(file.text))
  {
    match file
    case Text(t) => Success(Strip(t))
    case OsError => Success("unknown")
    case DecodeError => Failure("UnicodeDecodeError")
  }

  /**
   * `check_for_updates`: the local version is read first, outside any
   * handler, so a decode error raises out of the check. Otherwise the
   * fetched text is stripped and compared with the local version; a failed
   * fetch or an unparseable version gives an error and no update.
   */
  function CheckForUpdates(file: FileRead, fetched: Result<string, string>): (res: Result<UpdateCheckResult, string>)
    ensures res.Failure? <==> file.DecodeError?
    ensures res.Success? ==>
              var r := res.value;
              && Success(r.localVersion) == ReadLocalVersion(file)
              && (r.error.None? <==> r.remoteVersion.Some? && Compare(r.remoteVersion.value, r.localVersion).Success?)
              && (r.updateAvailable <==> r.error.None? && Compare(r.remoteVersion.value, r.localVersion).value > 0)
              && (fetched.Failure? ==> r.remoteVersion.None? && r.error == Some(fetched.error))
              && (fetched.Success? ==> r.remoteVersion == Some(Strip(fetched.value)))
  {
    match ReadLocalVersion(file)
    case Failure(e) => Failure(e)
    case Success(local) =>
      match fetched
      case Failure(e) => Success(UpdateCheckResult(local, None, false, Some(e)))
      case Success(text) =>
        var remote := Strip(text);
        match Compare(remote, local)
        case Failure(e) => Success(UpdateCheckResult(local, Some(remote), false, Some(e)))
        case Success(c) => Success(UpdateCheckResult(local, Some(remote), c > 0, None))
  }

  // ---------------------------------------------------------------------
  // The order
  // ---------------------------------------------------------------------

  lemma CompareRange(x: Version, y: Version)
    ensures CompareVersions(x, y) in {-1, 0, 1}
  {
    IdsRange(if x.pre.Some? then x.pre.value else [], if y.pre.Some? then y.pre.value else []);
  }

  lemma {:induction false} IdsRange(a: seq<string>, b: seq<string>)
    ensures CompareIds(a, b) in {-1, 0, 1}
    decreases |a|
  {
    if |a| > 0 && |b| > 0 && CompareId(a[0], b[0]) == 0 {
      IdsRange(a[1..], b[1..]);
    }
  }

  lemma CompareIdAntisymmetric(a: string, b: string)
    ensures CompareId(a, b) == -CompareId(b, a)
  {
    if a != b {
      LessTrichotomy(a, b);
    }
  }

  lemma {:induction false} IdsAntisymmetric(a: seq<string>, b: seq<string>)
    ensures CompareIds(a, b) == -CompareIds(b, a)
    decreases |a|
  {
    if |a| > 0 && |b| > 0 {
      CompareIdAntisymmetric(a[0], b[0]);
      IdsAntisymmetric(a[1..], b[1..]);
    }
  }

  lemma {:induction false} IdsReflexive(a: seq<string>)
    ensures CompareIds(a, a) == 0
    decreases |a|
  {
    if |a| > 0 {
      IdsReflexive(a[1..]);
    }
  }

  lemma CompareIdTransitive(a: string, b: string, c: string)
    requires CompareId(a, b) <= 0 && CompareId(b, c) <= 0
    ensures CompareId(a, c) <= 0
    ensures CompareId(a, b) < 0 || CompareId(b, c) < 0 ==> CompareId(a, c) < 0
  {
    if !AllDigits(a) && !AllDigits(b) && !AllDigits(c) {
      if a != b && b != c {
        LessTransitive(a, b, c);
        if a == c {
          LessTrichotomy(a, b);
        }
      }
    }
  }

  lemma {:induction false} IdsTransitive(a: seq<string>, b: seq<string>, c: seq<string>)
    requires CompareIds(a, b) <= 0 && CompareIds(b, c) <= 0
    ensures CompareIds(a, c) <= 0
    ensures CompareIds(a, b) < 0 || CompareIds(b, c) < 0 ==> CompareIds(a, c) < 0
    decreases |a|
  {
    if |a| > 0 && |b| > 0 && |c| > 0 {
      CompareIdTransitive(a[0], b[0], c[0]);
      if CompareId(a[0], b[0]) == 0 && CompareId(b[0], c[0]) == 0 {
        IdsTransitive(a[1..], b[1..], c[1..]);
      }
    }
  }

  /** Every version equals itself. */
  lemma CompareReflexive(x: Version)
    ensures CompareVersions(x, x) == 0
  {
    if x.pre.Some? {
      IdsReflexive(x.pre.value);
    }
  }

  /** Swapping the arguments negates the result. */
  lemma CompareAntisymmetric(x: Version, y: Version)
    ensures CompareVersions(x, y) == -CompareVersions(y, x)
  {
    if x.pre.Some? && y.pre.Some? {
      IdsAntisymmetric(x.pre.value, y.pre.value);
    }
  }

  /** "Not above" is transitive, and strictly so when either step is strict. */
  lemma CompareTransitive(x: Version, y: Version, z: Version)
    requires CompareVersions(x, y) <= 0 && CompareVersions(y, z) <= 0
    ensures CompareVersions(x, z) <= 0
    ensures CompareVersions(x, y) < 0 || CompareVersions(y, z) < 0 ==> CompareVersions(x, z) < 0
  {
    if CompareCore(x, y) == 0 && CompareCore(y, z) == 0 && x.pre.Some? && y.pre.Some? && z.pre.Some? {
      IdsTransitive(x.pre.value, y.pre.value, z.pre.value);
    }
  }

  /** On version strings: `compare(a, a) == 0` and `compare(a, b) == -compare(b, a)`. */
  lemma CompareStrings(a: string, b: string)
    requires ParseVersion(a).Some? && ParseVersion(b).Some?
    ensures Compare(a, a) == Success(0)
    ensures Compare(a, b).value == -Compare(b, a).value
  {
    CompareReflexive(ParseVersion(a).value);
    CompareAntisymmetric(ParseVersion(a).value, ParseVersion(b).value);
  }

  /** Cores decide first; with equal cores a release outranks every prerelease. */
  lemma ReleaseOutranksPrerelease(x: Version, y: Version)
    requires (x.major, x.minor, x.patch) == (y.major, y.minor, y.patch)
    requires x.pre.None? && y.pre.Some?
    ensures CompareVersions(x, y) == 1 && CompareVersions(y, x) == -1
  {
  }

  lemma CoreDecides(x: Version, y: Version)
    requires (x.major, x.minor, x.patch) != (y.major, y.minor, y.patch)
    ensures CompareVersions(x, y) == CompareCore(x, y) != 0
  {
  }

  /** Numeric identifiers compare by value and rank below alphanumeric ones. */
  lemma PrereleaseIdentifiers(a: string, b: string)
    ensures AllDigits(a) && AllDigits(b) ==> CompareId(a, b) == CompareNat(DigitsValue(a), DigitsValue(b))
    ensures AllDigits(a) && !AllDigits(b) ==> CompareId(a, b) == -1
    ensures !AllDigits(a) && !AllDigits(b) && a != b ==> (CompareId(a, b) == -1 <==> Less(a, b))
  {
    if !AllDigits(a) && !AllDigits(b) && a != b {
      LessTrichotomy(a, b);
    }
  }

  /** A list of identifiers that another extends ranks lower. */
  lemma {:induction false} ShorterPrefixRanksLower(a: seq<string>, rest: seq<string>)
    requires |rest| > 0
    ensures CompareIds(a, a + rest) == -1
    decreases |a|
  {
    if |a| > 0 {
      assert (a + rest)[0] == a[0] && (a + rest)[1..] == a[1..] + rest;
      ShorterPrefixRanksLower(a[1..], rest);
    }
  }

  // ---------------------------------------------------------------------
  // What the parser accepts
  // ---------------------------------------------------------------------

  /** The canonical text of a version: `M.m.p`, then `-` and the dotted identifiers. */
  function Render(v: Version): string {
    NatToString(v.major) + "." + NatToString(v.minor) + "." + NatToString(v.patch)
    + (if v.pre.Some? then "-" + Join(v.pre.value, ".") else "")
  }

  predicate ValidIds(ids: seq<string>) {
    |ids| >= 1 && forall k :: 0 <= k < |ids| ==> IsIdentifier(ids[k])
  }

  predicate ValidVersion(v: Version) {
    v.pre.Some? ==> ValidIds(v.pre.value)
  }

  lemma {:induction false} NatToStringLeading(n: nat)
    ensures NatToString(n)[0] != '0' || n == 0
    ensures n < 10 ==> |NatToString(n)| == 1
    decreases n
  {
    if n >= 10 {
      NatToStringLeading(n / 10);
      assert NatToString(n)[0] == NatToString(n / 10)[0];
    }
  }

  lemma NumberOfNat(n: nat)
    ensures IsNumericId(NatToString(n)) && Number(NatToString(n)) == Some(n)
  {
    NatToStringLeading(n);
    DigitsValueOfNat(n);
    if n == 0 {
      assert NatToString(0) == "0";
    }
  }

  lemma CutAbsent(w: string, c: char)
    requires c !in w
    ensures Cut(w, c) == (w, None)
  {
  }

  lemma {:induction false} CutAt(w: string, c: char, t: string)
    requires c !in w
    ensures Cut(w + [c] + t, c) == (w, Some(t))
    decreases |w|
  {
    var s := w + [c] + t;
    if |w| == 0 {
      assert s[0] == c && s[1..] == t;
    } else {
      assert s[0] == w[0] && s[1..] == w[1..] + [c] + t;
      CutAt(w[1..], c, t);
      assert [w[0]] + w[1..] == w;
    }
  }

  lemma DottedOfValid(ids: seq<string>)
    requires ValidIds(ids)
    ensures Dotted(Join(ids, ".")) == Some(ids)
  {
    assert forall k :: 0 <= k < |ids| ==> '.' !in ids[k];
    SplitJoin(ids, '.');
  }

  predicate IdCharOrDot(c: char) {
    IdChar(c) || c == '.'
  }

  lemma {:induction false} JoinChars(ids: seq<string>)
    requires forall k :: 0 <= k < |ids| ==> IsIdentifier(ids[k])
    ensures forall i :: 0 <= i < |Join(ids, ".")| ==> IdCharOrDot(Join(ids, ".")[i])
    decreases |ids|
  {
    if |ids| > 1 {
      JoinChars(ids[1..]);
      var rest := Join(ids[1..], ".");
      var j := Join(ids, ".");
      assert j == ids[0] + "." + rest;
      forall i | 0 <= i < |j|
        ensures IdCharOrDot(j[i])
      {
        if i < |ids[0]| {
          assert j[i] == ids[0][i];
        } else if i > |ids[0]| {
          assert j[i] == rest[i - |ids[0]| - 1];
        }
      }
    }
  }

  /** The rendered core parses back to its three numbers. */
  lemma CoreOfRender(v: Version)
    ensures var core := NatToString(v.major) + "." + NatToString(v.minor) + "." + NatToString(v.patch);
            ParseCore(core) == Some((v.major, v.minor, v.patch))
            && forall i :: 0 <= i < |core| ==> IsDigit(core[i]) || core[i] == '.'
  {
    var a, b, c := NatToString(v.major), NatToString(v.minor), NatToString(v.patch);
    NumberOfNat(v.major);
    NumberOfNat(v.minor);
    NumberOfNat(v.patch);
    assert '.' !in a && '.' !in b && '.' !in c by {
      assert forall i :: 0 <= i < |a| ==> IsDigit(a[i]);
      assert forall i :: 0 <= i < |b| ==> IsDigit(b[i]);
      assert forall i :: 0 <= i < |c| ==> IsDigit(c[i]);
    }
    var core := a + "." + b + "." + c;
    assert core == a + ['.'] + (b + ['.'] + c);
    SplitPrefix(a, '.', b + ['.'] + c);
    SplitPrefix(b, '.', c);
    SplitNoSeparator(c, '.');
    assert Split(core, '.') == [a, b, c];
    CoreChars(a, b, c);
  }

  lemma CoreChars(a: string, b: string, c: string)
    requires forall i :: 0 <= i < |a| ==> IsDigit(a[i])
    requires forall i :: 0 <= i < |b| ==> IsDigit(b[i])
    requires forall i :: 0 <= i < |c| ==> IsDigit(c[i])
    ensures var core := a + "." + b + "." + c;
            forall i :: 0 <= i < |core| ==> IsDigit(core[i]) || core[i] == '.'
  {
    var core := a + "." + b + "." + c;
    assert |core| == |a| + |b| + |c| + 2;
    forall i | 0 <= i < |core|
      ensures IsDigit(core[i]) || core[i] == '.'
    {
      if i < |a| {
        assert core[i] == a[i];
      } else if |a| < i < |a| + 1 + |b| {
        assert core[i] == b[i - |a| - 1];
      } else if i > |a| + 1 + |b| {
        assert core[i] == c[i - |a| - 2 - |b|];
      }
    }
  }

  /** The rendered text of a valid version parses back to it, and holds no `+` and no whitespace. */
  lemma MainOfRender(v: Version)
    requires ValidVersion(v)
    ensures ParseMain(Render(v)) == Some(v)
    ensures |Render(v)| > 0 && forall i :: 0 <= i < |Render(v)| ==> IdCharOrDot(Render(v)[i])
  {
    var core := NatToString(v.major) + "." + NatToString(v.minor) + "." + NatToString(v.patch);
    CoreOfRender(v);
    var r := Render(v);
    if v.pre.Some? {
      var p := Join(v.pre.value, ".");
      JoinChars(v.pre.value);
      assert r == core + ['-'] + p;
      assert '-' !in core by {
        assert forall i :: 0 <= i < |core| ==> IsDigit(core[i]) || core[i] == '.';
      }
      CutAt(core, '-', p);
      DottedOfValid(v.pre.value);
      forall i | 0 <= i < |r|
        ensures IdCharOrDot(r[i])
      {
        if i < |core| {
          assert r[i] == core[i];
        } else if i > |core| {
          assert r[i] == p[i - |core| - 1];
        }
      }
    } else {
      assert r == core;
      assert '-' !in core by {
        assert forall i :: 0 <= i < |core| ==> IsDigit(core[i]) || core[i] == '.';
      }
      CutAbsent(core, '-');
    }
  }

  /** Whitespace around a text whose ends are not whitespace is stripped off. */
  lemma StripPadded(lead: string, mid: string, trail: string)
    requires |mid| > 0 && !IsSpace(mid[0]) && !IsSpace(mid[|mid| - 1])
    requires forall i :: 0 <= i < |lead| ==> IsSpace(lead[i])
    requires forall i :: 0 <= i < |trail| ==> IsSpace(trail[i])
    ensures Strip(lead + mid + trail) == mid
  {
    var s := lead + mid + trail;
    assert s == lead + (mid + trail);
    LStripPadded(lead, mid + trail);
    RStripPadded(mid, trail);
  }

  /** Build metadata as written after the version: `+` and the dotted identifiers, or nothing. */
  function BuildText(build: seq<string>): string {
    if |build| > 0 then "+" + Join(build, ".") else ""
  }

  /** A version text with leading whitespace, an optional `v`, build metadata and trailing whitespace. */
  function Decorated(lead: string, vee: bool, main: string, build: seq<string>, trail: string): string {
    lead + (if vee then "v" else "") + main + BuildText(build) + trail
  }

  /**
   * Every valid version round-trips through its canonical text, and the
   * parser also accepts it with surrounding whitespace, a leading `v` and
   * build metadata, which is ignored.
   */
  lemma ParseRender(v: Version, lead: string, vee: bool, build: seq<string>, trail: string)
    requires ValidVersion(v) && (|build| > 0 ==> ValidIds(build))
    requires forall i :: 0 <= i < |lead| ==> IsSpace(lead[i])
    requires forall i :: 0 <= i < |trail| ==> IsSpace(trail[i])
    ensures ParseVersion(Render(v)) == Some(v)
    ensures ParseVersion(Decorated(lead, vee, Render(v), build, trail)) == Some(v)
  {
    MainOfRender(v);
    assert Render(v)[0] == NatToString(v.major)[0];
    ParsePaddedMain(Render(v), "", false, [], "");
    EmptyPad(Render(v));
    ParsePaddedMain(Render(v), lead, vee, build, trail);
  }

  /** Any main part free of whitespace and `+`, padded, prefixed and followed by build metadata. */
  lemma ParsePaddedMain(main: string, lead: string, vee: bool, build: seq<string>, trail: string)
    requires |main| > 0 && main[0] != 'v' && forall i :: 0 <= i < |main| ==> IdCharOrDot(main[i])
    requires |build| > 0 ==> ValidIds(build)
    requires forall i :: 0 <= i < |lead| ==> IsSpace(lead[i])
    requires forall i :: 0 <= i < |trail| ==> IsSpace(trail[i])
    ensures ParseVersion(Decorated(lead, vee, main, build, trail)) == ParseMain(main)
  {
    var body := main + BuildText(build);
    BodyEnds(main, build);
    BodyPadded(lead, vee, body, trail);
    NoPlus(main);
    Regroup(lead + (if vee then "v" else ""), main, BuildText(build), trail);
    ParseWithBuild(Decorated(lead, vee, main, build, trail), main, build);
  }

  lemma BodyEnds(main: string, build: seq<string>)
    requires |main| > 0 && forall i :: 0 <= i < |main| ==> IdCharOrDot(main[i])
    requires |build| > 0 ==> ValidIds(build)
    ensures var body := main + BuildText(build);
            body[0] == main[0] && IdCharOrDot(body[0]) && IdCharOrDot(body[|body| - 1])
  {
    var body := main + BuildText(build);
    if |build| > 0 {
      var j := Join(build, ".");
      JoinChars(build);
      JoinNonEmpty(build);
      assert body[|body| - 1] == j[|j| - 1];
    } else {
      assert body[|body| - 1] == main[|main| - 1];
    }
  }

  lemma EmptyPad(w: string)
    ensures Decorated("", false, w, [], "") == w
  {
  }

  lemma NoPlus(w: string)
    requires forall i :: 0 <= i < |w| ==> IdCharOrDot(w[i])
    ensures '+' !in w
  {
  }

  lemma Regroup(a: string, b: string, c: string, d: string)
    ensures a + b + c + d == a + (b + c) + d
  {
  }

  /** The text the groups see is what remains after the whitespace and one `v`. */
  lemma BodyPadded(lead: string, vee: bool, body: string, trail: string)
    requires |body| > 0 && body[0] != 'v' && !IsSpace(body[0]) && !IsSpace(body[|body| - 1])
    requires forall i :: 0 <= i < |lead| ==> IsSpace(lead[i])
    requires forall i :: 0 <= i < |trail| ==> IsSpace(trail[i])
    ensures Body(lead + (if vee then "v" else "") + body + trail) == body
  {
    var mid := (if vee then "v" else "") + body;
    assert lead + (if vee then "v" else "") + body + trail == lead + mid + trail;
    assert mid[|mid| - 1] == body[|body| - 1];
    StripPadded(lead, mid, trail);
  }

  /** Valid build metadata after the first `+` is dropped. */
  lemma ParseWithBuild(s: string, main: string, build: seq<string>)
    requires '+' !in main && (|build| > 0 ==> ValidIds(build))
    requires Body(s) == main + BuildText(build)
    ensures ParseVersion(s) == ParseMain(main)
  {
    if |build| > 0 {
      assert Body(s) == main + ['+'] + Join(build, ".");
      CutAt(main, '+', Join(build, "."));
      DottedOfValid(build);
    } else {
      assert Body(s) == main;
      CutAbsent(main, '+');
    }
  }

  lemma {:induction false} JoinNonEmpty(ids: seq<string>)
    requires |ids| >= 1 && |ids[0]| > 0
    ensures |Join(ids, ".")| > 0
  {
  }

  /** A text of identifier characters and dots, without `v`, `-` or `+`, is just a core. */
  lemma PlainCore(w: string)
    requires |w| > 0 && w[0] != 'v' && '-' !in w && forall i :: 0 <= i < |w| ==> IdCharOrDot(w[i])
    ensures ParseVersion(w) == if ParseCore(w).Some? then Some(Version(ParseCore(w).value.0, ParseCore(w).value.1, ParseCore(w).value.2, None)) else None
  {
    ParsePaddedMain(w, "", false, [], "");
    EmptyPad(w);
    CutAbsent(w, '-');
  }

  /** A missing minor and patch are 0: "n" is the same version as "n.0.0". */
  lemma ShortCoreDefaults(n: nat)
    ensures ParseVersion(NatToString(n)) == Some(Version(n, 0, 0, None))
    ensures Compare(NatToString(n), Render(Version(n, 0, 0, None))) == Success(0)
  {
    NumberOfNat(n);
    NatToStringLeading(n);
    SingleNumber(NatToString(n));
    var v := Version(n, 0, 0, None);
    ParseRender(v, "", false, [], "");
    CompareReflexive(v);
  }

  lemma SingleNumber(w: string)
    requires IsNumericId(w) && w[0] != 'v'
    ensures ParseVersion(w) == Some(Version(DigitsValue(w), 0, 0, None))
  {
    assert forall i :: 0 <= i < |w| ==> IsDigit(w[i]);
    PlainCore(w);
    SplitNoSeparator(w, '.');
    assert ParseCore(w) == Some((DigitsValue(w), 0, 0));
  }

  lemma CutFirst(w: string, c: char)
    requires |w| > 0 && w[0] != c
    ensures |Cut(w, c).0| > 0 && Cut(w, c).0[0] == w[0]
  {
  }

  lemma SplitFirst(w: string, c: char)
    requires |w| > 0 && w[0] != c
    ensures |Split(w, c)[0]| > 0 && Split(w, c)[0][0] == w[0]
  {
  }

  /** A core number with a leading zero is rejected. */
  lemma LeadingZeroRejected(d: string, tail: string)
    requires |d| >= 2 && d[0] == '0' && AllDigits(d)
    requires tail == [] || tail[0] == '.'
    requires '-' !in tail && forall i :: 0 <= i < |tail| ==> IdCharOrDot(tail[i])
    ensures ParseVersion(d + tail) == None
  {
    var w := d + tail;
    ConcatIdChars(d, tail);
    PlainCore(w);
    FirstPiece(d, tail);
    assert Number(d).None?;
  }

  lemma ConcatIdChars(d: string, tail: string)
    requires AllDigits(d)
    requires '-' !in tail && forall i :: 0 <= i < |tail| ==> IdCharOrDot(tail[i])
    ensures var w := d + tail; '-' !in w && forall i :: 0 <= i < |w| ==> IdCharOrDot(w[i])
  {
    var w := d + tail;
    forall i | 0 <= i < |w|
      ensures IdCharOrDot(w[i]) && w[i] != '-'
    {
      if i < |d| {
        assert w[i] == d[i];
      } else {
        assert w[i] == tail[i - |d|];
      }
    }
  }

  /** Digits before the first dot are the first piece of the split. */
  lemma FirstPiece(d: string, tail: string)
    requires AllDigits(d)
    requires tail == [] || tail[0] == '.'
    ensures Split(d + tail, '.')[0] == d
  {
    var w := d + tail;
    assert '.' !in d by {
      assert forall i :: 0 <= i < |d| ==> IsDigit(d[i]);
    }
    if tail == [] {
      assert w == d;
      SplitNoSeparator(d, '.');
    } else {
      assert w == d + ['.'] + tail[1..];
      SplitPrefix(d, '.', tail[1..]);
    }
  }

  /** A text that starts with a letter other than `v` is not a version. */
  lemma LetterStartRejected(s: string)
    requires |s| > 0 && IsAsciiLetter(s[0]) && s[0] != 'v' && !IsSpace(s[|s| - 1])
    ensures ParseVersion(s) == None
  {
    StripOfStripped(s);
    assert Body(s) == s;
    CutFirst(s, '+');
    var main := Cut(s, '+').0;
    CutFirst(main, '-');
    var core := Cut(main, '-').0;
    SplitFirst(core, '.');
    assert Number(Split(core, '.')[0]).None?;
  }

  /**
   * A `version.txt` whose read raises an `OSError` reads as "unknown", which
   * never parses: no update, and an error.
   */
  lemma UnknownLocalVersion(fetched: Result<string, string>)
    ensures var r := CheckForUpdates(OsError, fetched);
            r.Success? && r.value.localVersion == "unknown" && !r.value.updateAvailable && r.value.error.Some?
  {
    LetterStartRejected("unknown");
  }
}
