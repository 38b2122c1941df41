/**
 * The update dialogs: how a version is shown, where the release notes
 * link points, and which update methods are offered (Git for a run from
 * source, the automatic updater for the frozen Windows build).
 */
module UpdateDialogs {
  import opened Wrappers
  import opened Strings
  import AutoUpdate

  const ReleasesUrl := "https://github.com/LyubomirT/intense-rp-next/releases"

  /** A stripped version with one leading `v`/`V` and the blanks after it dropped. */
  function RestOf(value: string): string {
    if |value| > 0 && (value[0] == 'v' || value[0] == 'V') then Strip(value[1..]) else value
  }

  /** The updater's tag normalisation, in terms of `RestOf`. */
  lemma NormalizeTagCases(version: string)
    ensures var rest := RestOf(Strip(version));
            AutoUpdate.NormalizeTag(version).Success? <==> rest != "" && Lower(rest) != "unknown"
    ensures AutoUpdate.NormalizeTag(version).Success? ==> AutoUpdate.NormalizeTag(version).value == "v" + RestOf(Strip(version))
  {
  }

  /** `_format_version`: `None`, blanks and `unknown` show as `unknown`, anything else as `v<version>`. */
  function FormatVersion(version: Option<string>): (r: string)
    ensures r == "unknown" || (|r| >= 2 && r[0] == 'v')
  {
    var value := Strip(version.GetOr(""));
    if value == "" then "unknown"
    else
      var rest := if value[0] == 'v' || value[0] == 'V' then (var t := Strip(value[1..]); if t == "" then "unknown" else t) else value;
      if Lower(rest) == "unknown" then "unknown" else "v" + rest
  }

  /** The shown version is the normalised tag of the updater, or `unknown` where the updater refuses the tag. */
  lemma FormatVersionIsTag(version: Option<string>)
    ensures FormatVersion(version)
         == match AutoUpdate.NormalizeTag(version.GetOr(""))
            case Success(tag) => tag
            case Failure(_) => "unknown"
  {
    var value := Strip(version.GetOr(""));
    NormalizeTagCases(version.GetOr(""));
    if value != "" && RestOf(value) == "" {
      LowerUnknown();
    }
  }

  lemma LowerUnknown()
    ensures Lower("unknown") == "unknown"
  {
    assert forall i :: 0 <= i < |"unknown"| ==> LowerChar("unknown"[i]) == "unknown"[i];
  }

  /** Formatting a shown version again changes nothing. */
  lemma FormatVersionIdempotent(version: Option<string>)
    ensures FormatVersion(Some(FormatVersion(version))) == FormatVersion(version)
  {
    FormatVersionIsTag(version);
    FormatVersionIsTag(Some(FormatVersion(version)));
    var r := AutoUpdate.NormalizeTag(version.GetOr(""));
    if r.Success? {
      AutoUpdate.NormalizeTagIdempotent(version.GetOr(""));
    } else {
      UnknownRefused();
    }
  }

  lemma UnknownRefused()
    ensures AutoUpdate.NormalizeTag("unknown").Failure?
  {
    var u := "unknown";
    StripOfStripped(u);
    LowerUnknown();
    AutoUpdate.UnknownValueRefused(u);
  }

  /** `UpdateAvailableInfo.release_notes_url` */
  function ReleaseNotesUrl(remoteVersion: string): string {
    var remote := Strip(remoteVersion);
    var rest := RestOf(remote);
    if rest == "" || Lower(rest) == "unknown" then ReleasesUrl else ReleasesUrl + "/tag/v" + rest
  }

  /** The notes link is the tag's page for a version the updater accepts, and the releases page otherwise. */
  lemma ReleaseNotesUrlIsTag(remoteVersion: string)
    ensures ReleaseNotesUrl(remoteVersion)
         == match AutoUpdate.NormalizeTag(remoteVersion)
            case Success(tag) => ReleasesUrl + "/tag/" + tag
            case Failure(_) => ReleasesUrl
  {
    NormalizeTagCases(remoteVersion);
    TagPage(ReleasesUrl, RestOf(Strip(remoteVersion)));
  }

  lemma TagPage(base: string, rest: string)
    ensures base + "/tag/v" + rest == base + "/tag/" + ("v" + rest)
  {
  }

  /** The tag in the link is the version the dialog shows. */
  lemma ReleaseNotesShowsVersion(remoteVersion: string)
    requires AutoUpdate.NormalizeTag(remoteVersion).Success?
    ensures ReleaseNotesUrl(remoteVersion) == ReleasesUrl + "/tag/" + FormatVersion(Some(remoteVersion))
  {
    ReleaseNotesUrlIsTag(remoteVersion);
    FormatVersionIsTag(Some(remoteVersion));
  }

  /** `UpdateMethodAvailability` */
  datatype Availability = Availability(gitEnabled: bool, autoEnabled: bool, gitReason: string, autoReason: string)

  /** `default_update_method_availability` for a frozen or source run on `sys.platform`. */
  function DefaultAvailability(frozen: bool, platform: string): (a: Availability)
    ensures a.gitEnabled <==> !frozen
    ensures a.autoEnabled <==> frozen && StartsWith(platform, "win")
  {
    var gitEnabled := !frozen;
    var autoEnabled := frozen && StartsWith(platform, "win");
    Availability(
      gitEnabled,
      autoEnabled,
      if gitEnabled then "" else "Git updates are available only when running from source.",
      if autoEnabled then "" else if !frozen then "Not available on source runs." else "Auto-update is available only on Windows.")
  }

  /**
   * The two methods are never both offered; a method comes with a reason
   * exactly when it is not offered; and something is offered unless a
   * frozen build runs outside Windows.
   */
  lemma AvailabilityRules(frozen: bool, platform: string)
    ensures var a := DefaultAvailability(frozen, platform);
            && !(a.gitEnabled && a.autoEnabled)
            && (a.gitReason == "" <==> a.gitEnabled)
            && (a.autoReason == "" <==> a.autoEnabled)
            && ((a.gitEnabled || a.autoEnabled) <==> !frozen || StartsWith(platform, "win"))
            && (!frozen ==> a.autoReason == "Not available on source runs.")
            && (frozen && !StartsWith(platform, "win") ==> a.autoReason == "Auto-update is available only on Windows.")
  {
  }
}
