/**
 * The decisions of the automatic updater: normalising a version tag,
 * scoring and selecting the release asset for the platform, the file name
 * the archive is saved under, the choice of extractor, and locating the
 * application folder inside the extracted archive.
 *
 * The release is the dict the GitHub API returned; the extracted tree is
 * the sequence of directories `os.walk` visits, each with the text of its
 * path, its path components and its listing.
 */
module AutoUpdate {
  import opened Wrappers
  import opened Strings
  import opened JsonValue

  /** What the updater raises: its own error, or the `ValueError`/`TypeError` of `int()`. */
  datatype Error = AutoUpdateError(message: string) | ConversionError

  datatype Platform = Windows | Linux

  function PlatformName(p: Platform): string {
    if p.Windows? then "windows" else "linux"
  }

  /** `get_current_platform` from `sys.platform`. */
  function CurrentPlatform(sysPlatform: string): (r: Result<Platform, Error>)
    ensures r == Success(Windows) <==> StartsWith(sysPlatform, "win")
    ensures r == Success(Linux) <==> !StartsWith(sysPlatform, "win") && StartsWith(sysPlatform, "linux")
  {
    if StartsWith(sysPlatform, "win") then Success(Windows)
    else if StartsWith(sysPlatform, "linux") then Success(Linux)
    else Failure(AutoUpdateError("Unsupported platform: " + sysPlatform))
  }

  // ---------------------------------------------------------------------
  // Tags
  // ---------------------------------------------------------------------

  /** The placeholder `unknown`, in any case. */
  predicate IsUnknown(s: string) {
    Lower(s) == "unknown"
  }

  /** The tag of a version: stripped, one leading `v`/`V` and the blanks after it dropped, then `v` prefixed. */
  function NormalizeTag(version: string): (r: Result<string, Error>)
    ensures r.Success? ==> |r.value| >= 2 && r.value[0] == 'v'
    ensures Strip(version) == "" ==> r == Failure(AutoUpdateError("Missing version tag."))
  {
    var value := Strip(version);
    if value == "" then Failure(AutoUpdateError("Missing version tag."))
    else
      var rest := if value[0] == 'v' || value[0] == 'V' then Strip(value[1..]) else value;
      if rest == "" || IsUnknown(rest) then Failure(AutoUpdateError("Invalid version tag."))
      else Success("v" + rest)
  }

  /** A stripped value without a `v` that reads `unknown` is refused. */
  lemma UnknownValueRefused(value: string)
    requires Strip(value) == value && value != "" && value[0] != 'v' && value[0] != 'V' && IsUnknown(value)
    ensures NormalizeTag(value) == Failure(AutoUpdateError("Invalid version tag."))
  {
  }

  /** The part of a tag after its `v`, when the tag is well formed. */
  lemma NormalizeTagShape(version: string)
    ensures var r := NormalizeTag(version);
            r.Success? ==> var rest := r.value[1..];
                           && rest == Strip(rest) && rest != ""
                           && !IsUnknown(rest)
  {
    var value := Strip(version);
    if value != "" {
      StripIdempotent(version);
      if value[0] == 'v' || value[0] == 'V' {
        StripIdempotent(value[1..]);
      }
    }
  }

  /** Normalising a normalised tag changes nothing. */
  lemma NormalizeTagIdempotent(version: string)
    requires NormalizeTag(version).Success?
    ensures NormalizeTag(NormalizeTag(version).value) == NormalizeTag(version)
  {
    NormalizeTagShape(version);
    TagIsNormal(NormalizeTag(version).value);
  }

  lemma TagIsNormal(t: string)
    requires |t| >= 2 && t[0] == 'v'
    requires var rest := t[1..]; rest == Strip(rest) && rest != "" && !IsUnknown(rest)
    ensures NormalizeTag(t) == Success(t)
  {
    assert t == "v" + t[1..];
    NormalizeOfTag(t[1..]);
  }

  lemma NormalizeOfTag(rest: string)
    requires rest == Strip(rest) && rest != "" && !IsUnknown(rest)
    ensures NormalizeTag("v" + rest) == Success("v" + rest)
  {
    TagStripped(rest);
    NormalizeStripped("v" + rest);
  }

  lemma TagStripped(rest: string)
    requires rest == Strip(rest) && rest != ""
    ensures Strip("v" + rest) == "v" + rest && ("v" + rest)[1..] == rest
  {
    var t := "v" + rest;
    assert t[0] == 'v' && t[|t| - 1] == rest[|rest| - 1];
    StripOfStripped(t);
  }

  lemma NormalizeStripped(t: string)
    requires Strip(t) == t && |t| > 0 && t[0] == 'v'
    requires Strip(t[1..]) == t[1..] && t[1..] != "" && !IsUnknown(t[1..])
    ensures NormalizeTag(t) == Success("v" + t[1..])
  {
  }

  // ---------------------------------------------------------------------
  // Asset scores
  // ---------------------------------------------------------------------

  function Bonus(c: bool, n: int): int {
    if c then n else 0
  }

  /** `_score_asset_name` on the lower-cased name. */
  function ScoreLowered(lowered: string, platform: Platform): int {
    var archive :=
      if platform.Windows? then Bonus(EndsWith(lowered, ".zip"), 100)
      else if EndsWith(lowered, ".tar.gz") || EndsWith(lowered, ".tgz") then 100
      else Bonus(EndsWith(lowered, ".zip"), 50);
    var keyword :=
      if platform.Windows? then
        Bonus(Contains(lowered, "win") || Contains(lowered, "windows"), 40) + Bonus(Contains(lowered, "win32"), 10)
      else Bonus(Contains(lowered, "linux"), 40);
    var arch := Bonus(Contains(lowered, "x64") || Contains(lowered, "amd64") || Contains(lowered, "x86_64"), 20);
    archive + keyword + arch
  }

  function Score(name: string, platform: Platform): int {
    ScoreLowered(Lower(name), platform)
  }

  /** Scores lie between 0 and 170 on Windows, and 0 and 160 on Linux. */
  lemma ScoreBounds(name: string, platform: Platform)
    ensures 0 <= Score(name, platform) <= (if platform.Windows? then 170 else 160)
  {
  }

  /** The score ignores the case of the name. */
  lemma ScoreIgnoresCase(name: string, platform: Platform)
    ensures Score(Lower(name), platform) == Score(name, platform)
  {
    LowerIdempotent(name);
  }

  lemma ContainsWithin(s: string, t: string, u: string, k: nat)
    requires Contains(s, t) && k + |u| <= |t| && t[k..k + |u|] == u
    ensures Contains(s, u)
  {
    var i :| 0 <= i <= |s| - |t| && OccursAt(s, t, i);
    forall m | 0 <= m < |u|
      ensures s[i + k + m] == u[m]
    {
      assert s[i..i + |t|][k + m] == t[k + m];
      assert t[k..k + |u|][m] == t[k + m];
    }
    assert s[i + k..i + k + |u|] == u;
    assert OccursAt(s, u, i + k);
  }

  /**
   * On Windows a name passes the threshold of 50 exactly when it is a zip,
   * or names Windows together with `win32` or an x64 architecture: a name
   * that is no archive can still score 70.
   */
  lemma WindowsThreshold(name: string)
    ensures var l := Lower(name);
            var win := Contains(l, "win");
            var arch := Contains(l, "x64") || Contains(l, "amd64") || Contains(l, "x86_64");
            && (Score(name, Windows) >= 50 <==> EndsWith(l, ".zip") || (win && (Contains(l, "win32") || arch)))
            && (!EndsWith(l, ".zip") && Contains(l, "win32") && arch ==> Score(name, Windows) == 70)
  {
    var l := Lower(name);
    if Contains(l, "windows") {
      ContainsWithin(l, "windows", "win", 0);
    }
    if Contains(l, "win32") {
      ContainsWithin(l, "win32", "win", 0);
    }
  }

  /** On Linux a name passes the threshold exactly when it is an archive, or names Linux and an x64 architecture. */
  lemma LinuxThreshold(name: string)
    ensures var l := Lower(name);
            var arch := Contains(l, "x64") || Contains(l, "amd64") || Contains(l, "x86_64");
            Score(name, Linux) >= 50
            <==> EndsWith(l, ".tar.gz") || EndsWith(l, ".tgz") || EndsWith(l, ".zip") || (Contains(l, "linux") && arch)
  {
  }

  // ---------------------------------------------------------------------
  // Asset selection
  // ---------------------------------------------------------------------

  /** `str(asset.get(key) or "")` */
  function Field(asset: seq<Member>, key: string): string {
    var x := Get(asset, key);
    if Truthy(x) then PyStr(x) else ""
  }

  /** An asset the selection looks at: a dict with a name and a download URL. */
  predicate IsCandidate(a: Json) {
    a.JObj? && Field(a.members, "name") != "" && Field(a.members, "browser_download_url") != ""
  }

  /** `int(asset.get("size") or 0)`; nothing where `int()` raises. */
  function AssetSize(asset: seq<Member>): Option<int> {
    var x := Get(asset, "size");
    if !Truthy(x) then Some(0)
    else
      match x
      case JInt(n) => Some(n)
      case JBool(b) => Some(1)
      case JStr(s) => ParseInt(s)
      case _ => None
  }

  /**
   * What the selection loop makes of one asset: it skips it (not a dict, or
   * a missing name or URL), fails on it (`int()` of its size raises), or
   * ranks it by its name's score and its size.
   */
  datatype Rank = Skipped | Unconvertible | Ranked(score: int, size: int)

  function AssetRank(a: Json, platform: Platform): (r: Rank)
    ensures r.Skipped? <==> !IsCandidate(a)
    ensures r.Unconvertible? <==> IsCandidate(a) && AssetSize(a.members).None?
    ensures r.Ranked? ==> r.score >= 0
  {
    if !IsCandidate(a) then Skipped
    else
      match AssetSize(a.members)
      case None => Unconvertible
      case Some(size) => Ranked(Score(Field(a.members, "name"), platform), size)
  }

  function Ranks(assets: seq<Json>, platform: Platform): (r: seq<Rank>)
    ensures |r| == |assets| && Scored(r)
  {
    if |assets| == 0 then [] else [AssetRank(assets[0], platform)] + Ranks(assets[1..], platform)
  }

  lemma {:induction false} RankAt(assets: seq<Json>, platform: Platform, j: nat)
    requires j < |assets|
    ensures Ranks(assets, platform)[j] == AssetRank(assets[j], platform)
  {
    if j > 0 {
      RankAt(assets[1..], platform, j - 1);
    }
  }

  /** Every ranked asset has a score of at least 0, above the loop's starting score of -1. */
  predicate Scored(ranks: seq<Rank>) {
    forall j :: 0 <= j < |ranks| && ranks[j].Ranked? ==> ranks[j].score >= 0
  }

  /** The best asset so far: its index, score and size. */
  datatype Pick = Pick(best: Option<nat>, score: int, size: int)

  const NoPick := Pick(None, -1, -1)

  /** A strictly better (score, size) pair replaces the best. */
  predicate Beats(score: int, size: int, p: Pick) {
    score > p.score || (score == p.score && size > p.size)
  }

  function PickStep(r: Rank, i: nat, p: Pick): Result<Pick, Error> {
    match r
    case Skipped => Success(p)
    case Unconvertible => Failure(ConversionError)
    case Ranked(score, size) => if Beats(score, size, p) then Success(Pick(Some(i), score, size)) else Success(p)
  }

  /** The loop over the ranks from index `i` on. */
  function PickFrom(ranks: seq<Rank>, i: nat, p: Pick): Result<Pick, Error>
    requires i <= |ranks|
    decreases |ranks| - i
  {
    if i == |ranks| then Success(p)
    else
      match PickStep(ranks[i], i, p)
      case Failure(e) => Failure(e)
      case Success(q) => PickFrom(ranks, i + 1, q)
  }

  function NotFound(platform: Platform): Error {
    AutoUpdateError("Could not locate a " + PlatformName(platform) + " asset in the release.")
  }

  /** `select_platform_asset` */
  function SelectedAsset(release: seq<Member>, platform: Platform): Result<Json, Error> {
    var assets := Get(release, "assets");
    if !assets.JArr? || |assets.items| == 0 then Failure(AutoUpdateError("No release assets found."))
    else
      match PickFrom(Ranks(assets.items, platform), 0, NoPick)
      case Failure(e) => Failure(e)
      case Success(p) =>
        if p.best.None? || p.score < 50 || p.best.value >= |assets.items| then Failure(NotFound(platform))
        else Success(assets.items[p.best.value])
  }

  method SelectPlatformAsset(release: seq<Member>, platform: Platform) returns (r: Result<Json, Error>)
    ensures r == SelectedAsset(release, platform)
  {
    var assets := Get(release, "assets");
    if !assets.JArr? || |assets.items| == 0 {
      return Failure(AutoUpdateError("No release assets found."));
    }
    var items := assets.items;
    ghost var ranks := Ranks(items, platform);
    var best: Option<nat> := None;
    var bestScore := -1;
    var bestSize := -1;
    var i := 0;
    while i < |items|
      invariant 0 <= i <= |items|
      invariant best.Some? ==> best.value < i
      invariant PickFrom(ranks, 0, NoPick) == PickFrom(ranks, i, Pick(best, bestScore, bestSize))
      decreases |items| - i
    {
      RankAt(items, platform, i);
      var asset := items[i];
      if !asset.JObj? {
        i := i + 1;
        continue;
      }
      var name := Field(asset.members, "name");
      var url := Field(asset.members, "browser_download_url");
      if name == "" || url == "" {
        i := i + 1;
        continue;
      }
      var score := Score(name, platform);
      var size := AssetSize(asset.members);
      if size.None? {
        return Failure(ConversionError);
      }
      assert ranks[i] == Ranked(score, size.value);
      if score > bestScore || (score == bestScore && size.value > bestSize) {
        best := Some(i);
        bestScore := score;
        bestSize := size.value;
      }
      i := i + 1;
    }
    if best.None? || bestScore < 50 {
      return Failure(NotFound(platform));
    }
    r := Success(items[best.value]);
  }

  /** Rank `a` is at least as good as rank `b`: `strict` asks for strictly better. */
  predicate Over(a: Rank, b: Rank, strict: bool)
    requires a.Ranked? && b.Ranked?
  {
    a.score > b.score || (a.score == b.score && (if strict then a.size > b.size else a.size >= b.size))
  }

  /**
   * What the loop keeps over the ranks before `i`: none failed; the pick is
   * none exactly when none was ranked, and otherwise it is a ranked asset
   * holding its own score and size, at least as good as every one so far and
   * strictly better than every one before it.
   */
  predicate PickInv(ranks: seq<Rank>, i: nat, p: Pick)
    requires i <= |ranks|
  {
    && Scored(ranks)
    && (forall j :: 0 <= j < i ==> !ranks[j].Unconvertible?)
    && (p.best.None? <==> forall j :: 0 <= j < i ==> ranks[j].Skipped?)
    && (p.best.None? ==> p == NoPick)
    && (p.best.Some? ==>
          && p.best.value < i && ranks[p.best.value] == Ranked(p.score, p.size)
          && (forall j :: 0 <= j < i && ranks[j].Ranked? ==> Over(ranks[p.best.value], ranks[j], false))
          && (forall j :: 0 <= j < p.best.value && ranks[j].Ranked? ==> Over(ranks[p.best.value], ranks[j], true)))
  }

  lemma PickStepInv(ranks: seq<Rank>, i: nat, p: Pick)
    requires i < |ranks| && PickInv(ranks, i, p)
    ensures PickStep(ranks[i], i, p).Success? <==> !ranks[i].Unconvertible?
    ensures PickStep(ranks[i], i, p).Success? ==> PickInv(ranks, i + 1, PickStep(ranks[i], i, p).value)
  {
    var r := ranks[i];
    if r.Ranked? {
      if Beats(r.score, r.size, p) {
        var q := Pick(Some(i), r.score, r.size);
        assert PickStep(r, i, p) == Success(q);
        forall j | 0 <= j < i && ranks[j].Ranked?
          ensures Over(r, ranks[j], true)
        {
          assert p.best.Some?;
          assert Over(ranks[p.best.value], ranks[j], false);
        }
        assert PickInv(ranks, i + 1, q);
      } else {
        assert PickStep(r, i, p) == Success(p);
        assert Over(ranks[p.best.value], r, false);
      }
    }
  }

  lemma {:induction false} PickFromInv(ranks: seq<Rank>, i: nat, p: Pick)
    requires i <= |ranks| && PickInv(ranks, i, p)
    ensures PickFrom(ranks, i, p).Success? <==> forall j :: i <= j < |ranks| ==> !ranks[j].Unconvertible?
    ensures PickFrom(ranks, i, p).Success? ==> PickInv(ranks, |ranks|, PickFrom(ranks, i, p).value)
    ensures PickFrom(ranks, i, p).Failure? ==> PickFrom(ranks, i, p).error == ConversionError
    decreases |ranks| - i
  {
    if i < |ranks| {
      PickStepInv(ranks, i, p);
      if PickStep(ranks[i], i, p).Success? {
        PickFromInv(ranks, i + 1, PickStep(ranks[i], i, p).value);
      }
    }
  }

  /**
   * The rank at `k` is the first best one: ranked, at least as good as
   * every ranked asset, and strictly better than every one before it.
   */
  predicate FirstBest(ranks: seq<Rank>, k: nat) {
    && k < |ranks| && ranks[k].Ranked?
    && (forall j :: 0 <= j < |ranks| && ranks[j].Ranked? ==> Over(ranks[k], ranks[j], false))
    && (forall j :: 0 <= j < k && ranks[j].Ranked? ==> Over(ranks[k], ranks[j], true))
  }

  /** At most one rank is the first best. */
  lemma FirstBestUnique(ranks: seq<Rank>, k: nat, m: nat)
    requires FirstBest(ranks, k) && FirstBest(ranks, m)
    ensures k == m
  {
  }

  /**
   * The loop over the ranks fails exactly when some size does not convert;
   * otherwise it picks nothing exactly when every asset was skipped, and
   * else the first best rank, holding its score.
   */
  lemma PickOutcome(ranks: seq<Rank>)
    requires Scored(ranks)
    ensures var p := PickFrom(ranks, 0, NoPick);
            && (p.Failure? <==> exists j :: 0 <= j < |ranks| && ranks[j].Unconvertible?)
            && (p.Failure? ==> p.error == ConversionError)
            && (p.Success? ==> (p.value.best.None? <==> forall j :: 0 <= j < |ranks| ==> ranks[j].Skipped?))
            && (p.Success? && p.value.best.Some? ==>
                  FirstBest(ranks, p.value.best.value) && p.value.score == ranks[p.value.best.value].score)
  {
    PickFromInv(ranks, 0, NoPick);
  }

  /**
   * The selection fails with "No release assets found." without a
   * non-empty asset list; otherwise it fails with the conversion error when
   * the size of any candidate does not convert, with the platform's message
   * when no asset is a candidate or the first best candidate scores below
   * 50, and else returns that first best candidate.
   */
  lemma SelectionIsFirstBest(release: seq<Member>, platform: Platform, items: seq<Json>)
    requires Get(release, "assets") == JArr(items)
    ensures |items| == 0 ==> SelectedAsset(release, platform) == Failure(AutoUpdateError("No release assets found."))
    ensures (exists j :: 0 <= j < |items| && Ranks(items, platform)[j].Unconvertible?) ==>
              SelectedAsset(release, platform) == Failure(ConversionError)
    ensures |items| > 0 && (forall j :: 0 <= j < |items| ==> Ranks(items, platform)[j].Skipped?) ==>
              SelectedAsset(release, platform) == Failure(NotFound(platform))
    ensures forall k: nat :: FirstBest(Ranks(items, platform), k) ==>
              (forall j :: 0 <= j < |items| ==> !Ranks(items, platform)[j].Unconvertible?) ==>
              if Ranks(items, platform)[k].score >= 50 then SelectedAsset(release, platform) == Success(items[k])
              else SelectedAsset(release, platform) == Failure(NotFound(platform))
  {
    var ranks := Ranks(items, platform);
    PickOutcome(ranks);
    var p := PickFrom(ranks, 0, NoPick);
    if |items| > 0 {
      assert SelectedAsset(release, platform) == match p
        case Failure(e) => Failure(e)
        case Success(q) =>
          if q.best.None? || q.score < 50 || q.best.value >= |items| then Failure(NotFound(platform))
          else Success(items[q.best.value]);
      if p.Success? && p.value.best.Some? {
        var b := p.value.best.value;
        forall k: nat | FirstBest(ranks, k)
          ensures k == b
        {
          FirstBestUnique(ranks, k, b);
        }
      }
    }
  }

  /** Without an asset list the selection fails with "No release assets found.". */
  lemma NoAssetList(release: seq<Member>, platform: Platform)
    requires !Get(release, "assets").JArr?
    ensures SelectedAsset(release, platform) == Failure(AutoUpdateError("No release assets found."))
  {
  }

  /** When some asset is a candidate and every candidate's size converts, a first best candidate exists. */
  lemma {:induction false} FirstBestExists(release: seq<Member>, platform: Platform)
    requires Get(release, "assets").JArr?
    requires var ranks := Ranks(Get(release, "assets").items, platform);
             (forall j :: 0 <= j < |ranks| ==> !ranks[j].Unconvertible?) && exists j :: 0 <= j < |ranks| && ranks[j].Ranked?
    ensures exists k :: FirstBest(Ranks(Get(release, "assets").items, platform), k)
  {
    var ranks := Ranks(Get(release, "assets").items, platform);
    PickFromInv(ranks, 0, NoPick);
    var b := PickFrom(ranks, 0, NoPick).value.best.value;
    assert FirstBest(ranks, b);
  }

  // ---------------------------------------------------------------------
  // The saved file name
  // ---------------------------------------------------------------------

  /** A character of `[A-Za-z0-9._-]`. */
  predicate SafeChar(c: char) {
    IsAsciiLetter(c) || IsDigit(c) || c == '.' || c == '_' || c == '-'
  }

  /** `re.sub("[^A-Za-z0-9._-]+", "_", s)`; `inRun` says the character before was replaced. */
  function ReplaceRuns(s: string, inRun: bool): (r: string)
    ensures |r| <= |s|
    ensures forall i :: 0 <= i < |r| ==> SafeChar(r[i])
  {
    if |s| == 0 then ""
    else if SafeChar(s[0]) then [s[0]] + ReplaceRuns(s[1..], false)
    else if inRun then ReplaceRuns(s[1..], true)
    else "_" + ReplaceRuns(s[1..], true)
  }

  /** The archive's file name: the rewrite, or "update.archive" when it is empty. */
  function SafeName(name: string): string {
    var r := ReplaceRuns(name, false);
    if r == "" then "update.archive" else r
  }

  /** A name already made of allowed characters is kept as it is. */
  lemma {:induction false} ReplaceRunsSafe(s: string, inRun: bool)
    requires forall i :: 0 <= i < |s| ==> SafeChar(s[i])
    ensures ReplaceRuns(s, inRun) == s
  {
    if |s| > 0 {
      ReplaceRunsSafe(s[1..], false);
      assert [s[0]] + s[1..] == s;
    }
  }

  /** A run of disallowed characters becomes a single `_`, and nothing else changes length. */
  lemma RunCollapses(a: string, run: string, b: string)
    requires |run| > 0 && forall i :: 0 <= i < |run| ==> !SafeChar(run[i])
    requires forall i :: 0 <= i < |a| ==> SafeChar(a[i])
    requires |b| == 0 || SafeChar(b[0])
    ensures ReplaceRuns(a + run + b, false) == a + "_" + ReplaceRuns(b, false)
  {
    SafePrefix(a, run + b);
    assert a + run + b == a + (run + b);
    RunTail(run, b);
  }

  lemma {:induction false} SafePrefix(a: string, rest: string)
    requires forall i :: 0 <= i < |a| ==> SafeChar(a[i])
    ensures ReplaceRuns(a + rest, false) == a + ReplaceRuns(rest, false)
  {
    if |a| > 0 {
      assert (a + rest)[0] == a[0] && (a + rest)[1..] == a[1..] + rest;
      assert ReplaceRuns(a + rest, false) == [a[0]] + ReplaceRuns(a[1..] + rest, false);
      SafePrefix(a[1..], rest);
      assert a == [a[0]] + a[1..];
      assert [a[0]] + (a[1..] + ReplaceRuns(rest, false)) == a + ReplaceRuns(rest, false);
    } else {
      assert a + rest == rest;
    }
  }

  lemma {:induction false} RunTail(run: string, b: string)
    requires |run| > 0 && forall i :: 0 <= i < |run| ==> !SafeChar(run[i])
    requires |b| == 0 || SafeChar(b[0])
    ensures ReplaceRuns(run + b, false) == "_" + ReplaceRuns(b, false)
  {
    assert (run + b)[0] == run[0] && (run + b)[1..] == run[1..] + b;
    InRun(run[1..], b);
  }

  lemma {:induction false} InRun(run: string, b: string)
    requires forall i :: 0 <= i < |run| ==> !SafeChar(run[i])
    requires |b| == 0 || SafeChar(b[0])
    ensures ReplaceRuns(run + b, true) == ReplaceRuns(b, false)
  {
    if |run| > 0 {
      assert (run + b)[0] == run[0] && (run + b)[1..] == run[1..] + b;
      InRun(run[1..], b);
    } else {
      assert run + b == b;
    }
  }

  /** The name is kept exactly when it holds only allowed characters, so applying the rewrite twice changes nothing. */
  lemma SafeNameFixed(name: string)
    ensures ReplaceRuns(name, false) == name <==> forall i :: 0 <= i < |name| ==> SafeChar(name[i])
    ensures ReplaceRuns(ReplaceRuns(name, false), false) == ReplaceRuns(name, false)
  {
    if forall i :: 0 <= i < |name| ==> SafeChar(name[i]) {
      ReplaceRunsSafe(name, false);
    }
    ReplaceRunsSafe(ReplaceRuns(name, false), false);
  }

  // ---------------------------------------------------------------------
  // Extraction
  // ---------------------------------------------------------------------

  datatype Extractor = ZipExtractor | TarGzExtractor

  /**
   * `extract_archive`: a missing archive fails first, naming the whole path
   * `archivePath` (its `str`); then the lower-cased suffix of its `name`
   * picks the extractor.
   */
  function ChooseExtractor(archiveExists: bool, archivePath: string, name: string): (r: Result<Extractor, Error>)
    ensures !archiveExists ==> r == Failure(AutoUpdateError("Archive not found: " + archivePath))
    ensures r == Success(ZipExtractor) <==> archiveExists && EndsWith(Lower(name), ".zip")
    ensures r == Success(TarGzExtractor) <==>
              archiveExists && !EndsWith(Lower(name), ".zip") && (EndsWith(Lower(name), ".tar.gz") || EndsWith(Lower(name), ".tgz"))
  {
    var l := Lower(name);
    if !archiveExists then Failure(AutoUpdateError("Archive not found: " + archivePath))
    else if EndsWith(l, ".zip") then Success(ZipExtractor)
    else if EndsWith(l, ".tar.gz") || EndsWith(l, ".tgz") then Success(TarGzExtractor)
    else Failure(AutoUpdateError("Unsupported archive format: " + name))
  }

  /** Every asset that scores 100 for its archive format on its platform has an extractor. */
  lemma ArchiveAssetsExtract(archivePath: string, name: string, platform: Platform)
    requires EndsWith(Lower(name), ".zip") || (platform.Linux? && (EndsWith(Lower(name), ".tar.gz") || EndsWith(Lower(name), ".tgz")))
    ensures ChooseExtractor(true, archivePath, name).Success?
  {
  }

  // ---------------------------------------------------------------------
  // The extracted application folder
  // ---------------------------------------------------------------------

  /** A directory `os.walk` visits: the text of its path, its components, and its listing if readable. */
  datatype Dir = Dir(text: string, parts: seq<string>, isDir: bool, entries: Option<set<string>>)

  /** `_looks_like_app_root` */
  predicate LooksLikeAppRoot(d: Dir, expected: Option<string>) {
    && d.isDir && d.entries.Some?
    && "_internal" in d.entries.value && "version.txt" in d.entries.value
    && expected.Some? && expected.value != ""
    && expected.value in d.entries.value
  }

  /** Without an expected executable name no folder qualifies. */
  lemma NoExpectedName(d: Dir, expected: Option<string>)
    requires expected.None? || expected == Some("")
    ensures !LooksLikeAppRoot(d, expected)
  {
  }

  /** The candidate folders, in walk order. */
  function Candidates(walk: seq<Dir>, expected: Option<string>): (cs: seq<Dir>)
    ensures forall k :: 0 <= k < |cs| ==> LooksLikeAppRoot(cs[k], expected) && cs[k] in walk
    ensures (forall d :: d in walk ==> !LooksLikeAppRoot(d, expected)) <==> cs == []
  {
    if |walk| == 0 then []
    else
      var rest := Candidates(walk[..|walk| - 1], expected);
      var last := walk[|walk| - 1];
      assert forall d :: d in walk <==> d in walk[..|walk| - 1] || d == last by {
        assert walk == walk[..|walk| - 1] + [last];
      }
      if LooksLikeAppRoot(last, expected) then rest + [last] else rest
  }

  /** The sort key `(len(p.parts), str(p).lower())`, compared as a tuple. */
  predicate KeyLess(a: Dir, b: Dir) {
    |a.parts| < |b.parts| || (|a.parts| == |b.parts| && Less(Lower(a.text), Lower(b.text)))
  }

  /** The first index of a minimal key: where a stable sort puts its first element. */
  predicate FirstMinimal(cs: seq<Dir>, k: nat) {
    && k < |cs|
    && (forall j :: 0 <= j < |cs| ==> !KeyLess(cs[j], cs[k]))
    && (forall j :: 0 <= j < k ==> KeyLess(cs[k], cs[j]))
  }

  lemma KeyLessOrder(a: Dir, b: Dir, c: Dir)
    ensures KeyLess(a, b) && KeyLess(b, c) ==> KeyLess(a, c)
    ensures !KeyLess(a, b) ==> KeyLess(b, a) || (|a.parts| == |b.parts| && Lower(a.text) == Lower(b.text))
    ensures !(KeyLess(a, b) && KeyLess(b, a))
    ensures !KeyLess(a, a)
  {
    LessTrichotomy(Lower(a.text), Lower(b.text));
    LessIrreflexive(Lower(a.text));
    if KeyLess(a, b) && KeyLess(b, c) && |a.parts| == |b.parts| == |c.parts| {
      LessTransitive(Lower(a.text), Lower(b.text), Lower(c.text));
    }
  }

  /** A key below the minimum so far is the new first minimum. */
  lemma NewMinimum(cs: seq<Dir>, best: nat, j: nat)
    requires best < j < |cs|
    requires forall m :: 0 <= m < j ==> !KeyLess(cs[m], cs[best])
    requires KeyLess(cs[j], cs[best])
    ensures forall m :: 0 <= m < j ==> KeyLess(cs[j], cs[m])
    ensures forall m :: 0 <= m <= j ==> !KeyLess(cs[m], cs[j])
  {
    forall m | 0 <= m < j
      ensures KeyLess(cs[j], cs[m])
    {
      KeyLessOrder(cs[j], cs[best], cs[m]);
      KeyLessOrder(cs[m], cs[best], cs[j]);
    }
    forall m | 0 <= m <= j
      ensures !KeyLess(cs[m], cs[j])
    {
      KeyLessOrder(cs[m], cs[j], cs[best]);
      KeyLessOrder(cs[j], cs[j], cs[j]);
    }
  }

  /** Where `sorted(cs, key=...)[0]` comes from: the first index with a minimal key. */
  method FirstMinimalIndex(cs: seq<Dir>) returns (best: nat)
    requires |cs| > 0
    ensures FirstMinimal(cs, best)
  {
    best := 0;
    var j := 1;
    KeyLessOrder(cs[0], cs[0], cs[0]);
    while j < |cs|
      invariant 1 <= j <= |cs| && best < j
      invariant forall m :: 0 <= m < j ==> !KeyLess(cs[m], cs[best])
      invariant forall m :: 0 <= m < best ==> KeyLess(cs[best], cs[m])
      decreases |cs| - j
    {
      if KeyLess(cs[j], cs[best]) {
        NewMinimum(cs, best, j);
        best := j;
      } else {
        KeyLessOrder(cs[j], cs[best], cs[j]);
      }
      j := j + 1;
    }
  }

  /**
   * `find_extracted_app_root`: the candidates are collected in walk order
   * and the first one after sorting by the key is returned, which is the
   * first candidate with a minimal key.
   */
  method FindExtractedAppRoot(extractExists: bool, extractText: string, walk: seq<Dir>, expected: Option<string>)
    returns (r: Result<Dir, Error>)
    ensures !extractExists ==> r == Failure(AutoUpdateError("Extract directory not found: " + extractText))
    ensures extractExists ==> (r.Failure? <==> Candidates(walk, expected) == [])
    ensures r.Success? ==> exists k: nat :: FirstMinimal(Candidates(walk, expected), k) && r.value == Candidates(walk, expected)[k]
  {
    if !extractExists {
      return Failure(AutoUpdateError("Extract directory not found: " + extractText));
    }
    var candidates: seq<Dir> := [];
    var i := 0;
    while i < |walk|
      invariant 0 <= i <= |walk|
      invariant candidates == Candidates(walk[..i], expected)
      decreases |walk| - i
    {
      CandidatesStep(walk, i, expected);
      if LooksLikeAppRoot(walk[i], expected) {
        candidates := candidates + [walk[i]];
      }
      i := i + 1;
    }
    assert walk[..i] == walk;
    if |candidates| == 0 {
      return Failure(AutoUpdateError("Could not locate the extracted app folder (expected executable, version.txt and _internal)."));
    }
    var best := FirstMinimalIndex(candidates);
    r := Success(candidates[best]);
    assert FirstMinimal(Candidates(walk, expected), best);
  }

  lemma CandidatesStep(walk: seq<Dir>, i: nat, expected: Option<string>)
    requires i < |walk|
    ensures Candidates(walk[..i + 1], expected)
         == Candidates(walk[..i], expected) + (if LooksLikeAppRoot(walk[i], expected) then [walk[i]] else [])
  {
    var w := walk[..i + 1];
    assert w[..|w| - 1] == walk[..i] && w[|w| - 1] == walk[i];
  }
}
