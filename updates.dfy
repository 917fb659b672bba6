/**
 * The update check: cleaning a version string, turning it into a numeric id,
 * and comparing the running version with the latest published one. The
 * download of the published version is an input.
 */
module Updates {
  import opened Wrappers
  import opened JavaText

  /**
   * `getCleanVersion`: when the first '-' is past the start, the part before it
   * followed by "$" (the mark of a pre-release); otherwise the text unchanged.
   */
  function CleanVersion(version: string): (r: string)
    ensures IndexOf(version, '-') > 0 ==> r == version[..IndexOf(version, '-')] + "$"
    ensures IndexOf(version, '-') <= 0 ==> r == version
    ensures r == version || ('-' !in r && EndsWith(r, "$") && |r| <= |version|
                             && r[..|r| - 1] == version[..|r| - 1] && version[|r| - 1] == '-')
  {
    var i := IndexOf(version, '-');
    if i > 0 then version[..i] + "$" else version
  }

  /** Cleaning twice is cleaning once. */
  lemma CleanVersionIdempotent(version: string)
    ensures CleanVersion(CleanVersion(version)) == CleanVersion(version)
  {
    var c := CleanVersion(version);
    if c != version {
      assert IndexOf(c, '-') == -1;
    }
  }

  /** Java's `--x` on an `int`: the minimum wraps round to the maximum. */
  function Decrement(x: Int32): (r: Int32)
    ensures x > INT_MIN ==> r == x - 1
    ensures x == INT_MIN ==> r == INT_MAX
  {
    if x == INT_MIN then INT_MAX else x - 1
  }

  /** Every '.' and '$' removed, the step before parsing. */
  function Digitless(clean: string): string {
    RemoveChar(RemoveChar(clean, '.'), '$')
  }

  /**
   * The numeric id of a cleaned version: the digits after removing every '.'
   * and '$', one less for a pre-release; None where `parseInt` throws.
   */
  function VersionId(clean: string): (r: Option<Int32>)
    ensures r.Some? <==> ParseInt(Digitless(clean)).Some?
    ensures r.Some? && !EndsWith(clean, "$") ==> r == ParseInt(Digitless(clean))
  {
    match ParseInt(Digitless(clean))
    case None => None
    case Some(n) => Some(if EndsWith(clean, "$") then Decrement(n) else n)
  }

  /**
   * A pre-release (a '-' past the start) gets exactly one less than the id of its
   * release part, and the decrement never wraps round.
   */
  lemma {:induction false} PreReleaseIdIsOneLess(version: string)
    requires IndexOf(version, '-') > 0
    requires ParseInt(Digitless(CleanVersion(version))).Some?
    ensures ParseInt(Digitless(CleanVersion(version))).value >= 0
    ensures VersionId(CleanVersion(version)) == Some(ParseInt(Digitless(CleanVersion(version))).value - 1)
  {
    var c := CleanVersion(version);
    var i := IndexOf(version, '-');
    assert c == version[..i] + "$";
    assert '-' !in version[..i];
    assert '-' !in c;
    assert '-' !in RemoveChar(c, '.');
    assert '-' !in Digitless(c);
    assert EndsWith(c, "$");
  }

  /** How `checkForUpdates` ends. */
  datatype UpdateCheck =
    | UnableToCheck     // the download failed, or the file has no first line
    | NumberFormatError // a version id did not parse: the exception escapes
    | UpToDate
    | UpdateFound       // the "please update" banner is logged

  /** What the download produced. */
  datatype Download = IoFailure | FirstLine(line: Option<string>)

  /**
   * `checkForUpdates`: the banner is logged exactly when the running version's
   * id is below the latest one's; a missing first line gives "Unable to check"
   * and no comparison.
   */
  method CheckForUpdates(download: Download, currentVersion: string) returns (result: UpdateCheck)
    ensures download.IoFailure? || download.line.None? <==> result == UnableToCheck
    ensures result == UpdateFound <==>
      && download.FirstLine? && download.line.Some?
      && VersionId(CleanVersion(Trim(download.line.value))).Some?
      && VersionId(CleanVersion(currentVersion)).Some?
      && VersionId(CleanVersion(currentVersion)).value < VersionId(CleanVersion(Trim(download.line.value))).value
    ensures result == NumberFormatError <==>
      && download.FirstLine? && download.line.Some?
      && (VersionId(CleanVersion(Trim(download.line.value))).None? || VersionId(CleanVersion(currentVersion)).None?)
  {
    if download.IoFailure? || download.line.None? {
      return UnableToCheck;
    }
    var latestVersion0 := CleanVersion(Trim(download.line.value));
    var currentVersion0 := CleanVersion(currentVersion);
    var latestParsed := ParseInt(Digitless(latestVersion0));
    if latestParsed.None? {
      return NumberFormatError;
    }
    var currentParsed := ParseInt(Digitless(currentVersion0));
    if currentParsed.None? {
      return NumberFormatError;
    }
    var latestVersionId := latestParsed.value;
    var currentVersionId := currentParsed.value;
    if EndsWith(latestVersion0, "$") {
      latestVersionId := Decrement(latestVersionId);
    }
    if EndsWith(currentVersion0, "$") {
      currentVersionId := Decrement(currentVersionId);
    }
    result := if currentVersionId < latestVersionId then UpdateFound else UpToDate;
  }
}
