/**
 * The stand-alone updater: it waits for the app to exit, renames the install
 * directory to a backup, moves the downloaded payload into its place,
 * restores configs and logs, removes the backup and relaunches the app. A
 * failed install renames the backup back when nothing was left at the
 * install path. File-system steps are given as their outcomes.
 */
module Updater {
  import opened Wrappers
  import opened Strings
  import opened Paths

  const PayloadDirName := "intense-rp-next"
  const OptionalDirName := "optional"

  /** What one call of an action did: returned, or raised an exception with its message. */
  datatype Outcome = Ok | Raised(error: string)

  // Retrying

  /** `_retry` from attempt `attempt` on: the number of calls made and how the last one ended. */
  function RetryFrom(action: nat -> Outcome, attempt: nat, retries: int): (r: (nat, Outcome))
    requires attempt < retries
    ensures attempt + 1 <= r.0 <= retries && r.1 == action(r.0 - 1)
    ensures forall j :: attempt <= j < r.0 - 1 ==> action(j).Raised?
    ensures r.1.Raised? ==> r.0 == retries
    decreases retries - attempt
  {
    var outcome := action(attempt);
    if outcome.Ok? || attempt >= retries - 1 then (attempt + 1, outcome)
    else RetryFrom(action, attempt + 1, retries)
  }

  /**
   * `_retry(action, retries=retries)`: the calls and the result. It calls the
   * action at most `retries` times, stops at the first call that returns, and
   * otherwise re-raises the last call's exception; with `retries <= 0` it
   * returns without calling the action.
   */
  function Retried(action: nat -> Outcome, retries: int): (r: (nat, Outcome))
    ensures retries <= 0 ==> r == (0, Ok)
    ensures retries > 0 ==> 1 <= r.0 <= retries && r.1 == action(r.0 - 1)
    ensures forall j :: 0 <= j < r.0 - 1 ==> action(j).Raised?
    ensures r.1.Raised? ==> r.0 == retries
  {
    if retries <= 0 then (0, Ok) else RetryFrom(action, 0, retries)
  }

  /** The retry loop; the closing re-raise after the loop is unreachable, since the loop returns or re-raises on its last attempt. */
  method Retry(action: nat -> Outcome, retries: int) returns (calls: nat, result: Outcome)
    ensures (calls, result) == Retried(action, retries)
  {
    calls := 0;
    var attempt: nat := 0;
    while attempt < retries
      invariant calls == attempt
      invariant attempt > 0 ==> attempt < retries
      invariant attempt < retries ==> Retried(action, retries) == RetryFrom(action, attempt, retries)
    {
      var outcome := action(attempt);
      calls := calls + 1;
      if outcome.Ok? {
        result := Ok;
        return;
      }
      if attempt >= retries - 1 {
        result := outcome;
        return;
      }
      attempt := attempt + 1;
    }
    result := Ok;
  }

  // Paths

  /** `_default_payload_dir`: next to the updater, or next to its `optional` folder (the constant is already lower case). */
  function DefaultPayloadDir(updaterPath: Path): Path {
    var updaterDir := Parent(updaterPath);
    if Lower(Name(updaterDir)) == OptionalDirName then Child(Parent(updaterDir), PayloadDirName)
    else Child(updaterDir, PayloadDirName)
  }

  /** The payload directory is named `intense-rp-next` and sits in the updater's folder, or beside it when that folder is `optional` in any case. */
  lemma PayloadDirPlacement(updaterPath: Path)
    ensures Name(DefaultPayloadDir(updaterPath)) == PayloadDirName
    ensures Parent(DefaultPayloadDir(updaterPath))
         == if Lower(Name(Parent(updaterPath))) == "optional" then Parent(Parent(updaterPath)) else Parent(updaterPath)
  {
    PayloadNameValid();
    ChildPart(Parent(Parent(updaterPath)), PayloadDirName);
    ChildPart(Parent(updaterPath), PayloadDirName);
  }

  lemma PayloadNameValid()
    ensures ValidPart(PayloadDirName)
  {
    assert forall i :: 0 <= i < |PayloadDirName| ==> PayloadDirName[i] != '/';
  }

  /** `_compute_backup_dir` with the clock's timestamp given; `Failure` is the `ValueError` of `with_name`. */
  function ComputeBackupDir(installDir: Path, existing: set<Path>, timestamp: string): Result<Path, string> {
    var name := Name(installDir);
    match WithName(installDir, name + "-backup")
    case Failure(e) => Failure(e)
    case Success(base) =>
      if base !in existing then Success(base) else WithName(installDir, name + "-backup-" + timestamp)
  }

  lemma NoSlash(a: string, b: string)
    requires '/' !in a && '/' !in b
    ensures '/' !in a + b
  {
  }

  /**
   * A named install directory gets a sibling backup: `<name>-backup` when
   * that is free, `<name>-backup-<timestamp>` otherwise; the backup is never
   * the install directory itself.
   */
  lemma BackupDirSibling(installDir: Path, existing: set<Path>, timestamp: string)
    requires WellFormed(installDir) && Name(installDir) != "" && '/' !in timestamp
    ensures var r := ComputeBackupDir(installDir, existing, timestamp);
            var base := Path(installDir.absolute, Parent(installDir).parts + [Name(installDir) + "-backup"]);
            && r.Success?
            && Parent(r.value) == Parent(installDir) && r.value != installDir
            && (base !in existing ==> r.value == base)
            && (base in existing ==> Name(r.value) == Name(installDir) + "-backup-" + timestamp)
  {
    var name := Name(installDir);
    assert ValidPart(name);
    NoSlash(name, "-backup");
    NoSlash(name + "-backup", "-");
    NoSlash(name + "-backup-", timestamp);
    assert name + "-backup-" + timestamp == (name + "-backup-") + timestamp;
  }

  /** The root has no name and no backup: it is the `ValueError`. */
  lemma BackupDirOfRoot(installDir: Path, existing: set<Path>, timestamp: string)
    requires Name(installDir) == ""
    ensures ComputeBackupDir(installDir, existing, timestamp).Failure?
  {
  }

  // Arguments

  datatype UpdateArgs = UpdateArgs(installDir: Path, appPid: int, exeName: Option<string>, payloadDir: Option<Path>)

  /** `_parse_args` once `argparse` has read the options: `None` is an option not given. */
  function ParseArgs(installDir: string, appPid: int, exeName: Option<string>, payloadDir: Option<string>,
                     home: Path): (a: UpdateArgs)
    ensures a.installDir == ExpandUser(FromText(installDir), home) && a.appPid == appPid
    ensures a.exeName.None? <==> Strip(exeName.GetOr("")) == ""
    ensures a.exeName.Some? ==> a.exeName.value == Strip(exeName.value) && Strip(a.exeName.value) == a.exeName.value
    ensures a.payloadDir.None? <==> (payloadDir.None? || payloadDir.value == "")
    ensures a.payloadDir.Some? ==> a.payloadDir.value == ExpandUser(FromText(payloadDir.value), home)
  {
    var name := Strip(exeName.GetOr(""));
    StripIdempotent(exeName.GetOr(""));
    UpdateArgs(
      ExpandUser(FromText(installDir), home),
      appPid,
      if name == "" then None else Some(name),
      if payloadDir.Some? && payloadDir.value != "" then Some(ExpandUser(FromText(payloadDir.value), home)) else None)
  }

  // Choosing the executable

  /** A directory entry as `glob` lists it, with `is_file()` and `st_size`. */
  datatype Entry = Entry(name: string, isFile: bool, size: nat)

  /** A file the `*.exe` glob finds (case-insensitive, as on Windows) that is not the updater. */
  predicate IsCandidate(e: Entry) {
    e.isFile && EndsWith(Lower(e.name), ".exe") && Lower(e.name) != "updater.exe"
  }

  function Candidates(entries: seq<Entry>): (cs: seq<Entry>)
    ensures forall e :: e in cs <==> e in entries && IsCandidate(e)
  {
    if |entries| == 0 then []
    else (if IsCandidate(entries[0]) then [entries[0]] else []) + Candidates(entries[1..])
  }

  /** `a` sorts before `b` under `key=(size, lower name), reverse=True`. */
  predicate Greater(a: Entry, b: Entry) {
    a.size > b.size || (a.size == b.size && Less(Lower(b.name), Lower(a.name)))
  }

  /** The sort key is a strict total order up to equal keys. */
  lemma GreaterOrder(a: Entry, b: Entry, c: Entry)
    ensures !Greater(a, a)
    ensures Greater(a, b) ==> !Greater(b, a)
    ensures Greater(a, b) && Greater(b, c) ==> Greater(a, c)
    ensures !Greater(a, b) && !Greater(b, a) ==> a.size == b.size && Lower(a.name) == Lower(b.name)
  {
    LessIrreflexive(Lower(a.name));
    LessTrichotomy(Lower(a.name), Lower(b.name));
    if Greater(a, b) && Greater(b, c) && a.size == b.size && b.size == c.size {
      LessTransitive(Lower(c.name), Lower(b.name), Lower(a.name));
    }
  }

  /** The first element of the stable descending sort: a greatest key, and the first one with it. */
  function BestIndex(cs: seq<Entry>): (k: nat)
    requires |cs| > 0
    ensures k < |cs|
    ensures forall j :: 0 <= j < |cs| ==> !Greater(cs[j], cs[k])
    ensures forall j :: 0 <= j < k ==> Greater(cs[k], cs[j])
  {
    if |cs| == 1 then
      GreaterOrder(cs[0], cs[0], cs[0]);
      0
    else
      var n := |cs| - 1;
      var k := BestIndex(cs[..n]);
      assert forall j :: 0 <= j < n ==> cs[..n][j] == cs[j];
      if Greater(cs[n], cs[k]) then
        BestAbove(cs, k, n);
        n
      else
        assert forall j :: 0 <= j < n ==> !Greater(cs[j], cs[k]);
        k
  }

  lemma BestAbove(cs: seq<Entry>, k: nat, n: nat)
    requires k < n < |cs| && Greater(cs[n], cs[k])
    requires forall j :: 0 <= j < n ==> !Greater(cs[j], cs[k])
    ensures forall j :: 0 <= j <= n ==> !Greater(cs[j], cs[n])
    ensures forall j :: 0 <= j < n ==> Greater(cs[n], cs[j])
  {
    forall j | 0 <= j < n
      ensures !Greater(cs[j], cs[n]) && Greater(cs[n], cs[j])
    {
      GreaterOrder(cs[j], cs[n], cs[k]);
      GreaterOrder(cs[n], cs[k], cs[j]);
      GreaterOrder(cs[j], cs[k], cs[n]);
      if !Greater(cs[k], cs[j]) {
        assert cs[j].size == cs[k].size && Lower(cs[j].name) == Lower(cs[k].name);
      }
    }
    GreaterOrder(cs[n], cs[n], cs[n]);
  }

  /** `install_dir / preferred_name` is used when a non-empty preferred name exists there. */
  predicate PreferredHit(installDir: Path, preferred: Option<string>, existing: set<Path>) {
    preferred.Some? && preferred.value != "" && Child(installDir, preferred.value) in existing
  }

  /** `_select_main_exe`: `Failure` is the `UpdateFailed` raised when there is no candidate. */
  function SelectMainExe(installDir: Path, preferred: Option<string>, existing: set<Path>,
                         entries: seq<Entry>): (r: Result<Path, string>)
    ensures PreferredHit(installDir, preferred, existing) ==> r == Success(Child(installDir, preferred.value))
    ensures r.Failure? <==> !PreferredHit(installDir, preferred, existing) && forall e :: e in entries ==> !IsCandidate(e)
    ensures r.Failure? ==> r.error == "Could not locate an .exe in " + ToText(installDir)
    ensures r.Success? && !PreferredHit(installDir, preferred, existing) ==>
              exists e :: e in entries && IsCandidate(e) && r.value == Child(installDir, e.name)
                && forall d :: d in entries && IsCandidate(d) ==> !Greater(d, e)
  {
    if PreferredHit(installDir, preferred, existing) then Success(Child(installDir, preferred.value))
    else
      var cs := Candidates(entries);
      if cs == [] then
        Failure("Could not locate an .exe in " + ToText(installDir))
      else
        var k := BestIndex(cs);
        assert cs[k] in entries && IsCandidate(cs[k]);
        assert forall d :: d in entries && IsCandidate(d) ==> !Greater(d, cs[k]) by {
          forall d | d in entries && IsCandidate(d) ensures !Greater(d, cs[k]) {
            assert d in cs;
            var j :| 0 <= j < |cs| && cs[j] == d;
          }
        }
        Success(Child(installDir, cs[k].name))
  }

  // The update run

  /** One `status_cb` message and the `progress_cb` value after it. */
  datatype Report = Report(status: string, percent: int)

  const FullTrace: seq<Report> := [
    Report("Waiting for the app to close…", 5),
    Report("Preparing backup…", 15),
    Report("Installing new version…", 35),
    Report("Restoring configs and logs…", 60),
    Report("Cleaning up old version…", 75),
    Report("Launching updated app…", 90),
    Report("Done.", 100)
  ]

  /**
   * What the run meets: the working directory, the updater's own path,
   * whether it is frozen, and the outcome of each file-system step.
   * `installLeftBehind` says whether a failed move left anything at the
   * install path; the cleanup's outcome is absent because it is swallowed.
   */
  datatype World = World(
    cwd: Path, updaterPath: Path, frozen: bool,
    waitOk: bool, installDirOk: bool, payloadDirOk: bool,
    existing: set<Path>, timestamp: string,
    backup: nat -> Outcome, install: nat -> Outcome, installLeftBehind: bool,
    restore: Outcome, exes: set<Path>, entries: seq<Entry>, launch: Outcome)

  /**
   * The reports made, the exception that ends the run (if any), whether the
   * backup was renamed back, and the command handed to `Popen` (if any).
   */
  datatype Run = Run(trace: seq<Report>, error: Option<string>, rolledBack: bool, command: Option<seq<string>>)

  /** The relaunch command; a frozen updater asks the app to delete it. */
  function LaunchCommand(exe: Path, frozen: bool, updaterPath: Path): (cmd: seq<string>)
    ensures |cmd| > 0 && cmd[0] == ToText(exe)
    ensures frozen <==> |cmd| == 4
    ensures frozen ==> cmd[1..] == ["--deleteupdater", "--updaterpath", ToText(updaterPath)]
    ensures !frozen ==> cmd == [ToText(exe)]
  {
    [ToText(exe)] + (if frozen then ["--deleteupdater", "--updaterpath", ToText(updaterPath)] else [])
  }

  /** `_perform_update` */
  function PerformUpdate(args: UpdateArgs, w: World): Run {
    var installDir := Resolve(args.installDir, w.cwd);
    var payloadDir := Resolve(if args.payloadDir.Some? then args.payloadDir.value else DefaultPayloadDir(w.updaterPath), w.cwd);
    if args.appPid > 0 && !w.waitOk then Run(FullTrace[..1], Some("Timed out waiting for the app to exit."), false, None)
    else if !w.installDirOk then Run(FullTrace[..1], Some("Install directory not found: " + ToText(installDir)), false, None)
    else if !w.payloadDirOk then Run(FullTrace[..1], Some("Update payload directory not found: " + ToText(payloadDir)), false, None)
    else
      match ComputeBackupDir(installDir, w.existing, w.timestamp)
      case Failure(e) => Run(FullTrace[..2], Some(e), false, None)
      case Success(_) =>
        var backedUp := Retried(w.backup, 240).1;
        if backedUp.Raised? then Run(FullTrace[..2], Some(backedUp.error), false, None)
        else Installed(args, installDir, w)
  }

  /** The `try` block once the backup exists; a failure renames the backup back only when the install path is empty. */
  function Installed(args: UpdateArgs, installDir: Path, w: World): Run {
    var moved := Retried(w.install, 40).1;
    if moved.Raised? then Run(FullTrace[..3], Some(moved.error), !w.installLeftBehind, None)
    else if w.restore.Raised? then Run(FullTrace[..4], Some(w.restore.error), false, None)
    else
      match SelectMainExe(installDir, args.exeName, w.exes, w.entries)
      case Failure(e) => Run(FullTrace[..6], Some(e), false, None)
      case Success(exe) =>
        var cmd := LaunchCommand(exe, w.frozen, w.updaterPath);
        if w.launch.Raised? then Run(FullTrace[..6], Some(w.launch.error), false, Some(cmd))
        else Run(FullTrace, None, false, Some(cmd))
  }

  /** The backup was taken: the run got past the wait, the checks, the backup name and the rename. */
  predicate BackupTaken(args: UpdateArgs, w: World) {
    && (args.appPid <= 0 || w.waitOk) && w.installDirOk && w.payloadDirOk
    && ComputeBackupDir(Resolve(args.installDir, w.cwd), w.existing, w.timestamp).Success?
    && Retried(w.backup, 240).1.Ok?
  }

  /** Before the backup is taken a run fails with at most two reports and nothing to roll back; after it, the run is the `try` block. */
  lemma BeforeInstall(args: UpdateArgs, w: World)
    ensures BackupTaken(args, w) ==> PerformUpdate(args, w) == Installed(args, Resolve(args.installDir, w.cwd), w)
    ensures !BackupTaken(args, w) ==>
              var r := PerformUpdate(args, w);
              && r.error.Some? && !r.rolledBack && r.command.None?
              && (r.trace == FullTrace[..1] || r.trace == FullTrace[..2])
  {
  }

  /** The `try` block reports from 35 on, rolls back only after a failed move that left nothing behind, and re-raises the move's last exception. */
  lemma InstalledRun(args: UpdateArgs, installDir: Path, w: World)
    ensures var r := Installed(args, installDir, w);
            && 3 <= |r.trace| <= |FullTrace| && r.trace == FullTrace[..|r.trace|]
            && (r.error.None? <==> r.trace == FullTrace)
            && (r.error.None? ==> r.command.Some?)
            && (r.rolledBack <==> Retried(w.install, 40).1.Raised? && !w.installLeftBehind)
  {
    assert FullTrace[..|FullTrace|] == FullTrace;
    assert |FullTrace[..3]| == 3 && |FullTrace[..4]| == 4 && |FullTrace[..6]| == 6;
  }

  lemma InstallFailure(args: UpdateArgs, installDir: Path, w: World)
    requires Retried(w.install, 40).1.Raised?
    ensures Installed(args, installDir, w).error == Some(w.install(39).error)
    ensures forall j :: 0 <= j < 40 ==> w.install(j).Raised?
    ensures Installed(args, installDir, w).trace == FullTrace[..3]
  {
  }

  /** Progress only rises through 5, 15, 35, 60, 75, 90, 100, and the run succeeds exactly when it reaches 100. */
  lemma TraceRises(args: UpdateArgs, w: World)
    ensures var r := PerformUpdate(args, w);
            && 1 <= |r.trace| <= |FullTrace| && r.trace == FullTrace[..|r.trace|]
            && (r.error.None? <==> r.trace == FullTrace)
            && (r.error.None? ==> r.command.Some?)
  {
    BeforeInstall(args, w);
    InstalledRun(args, Resolve(args.installDir, w.cwd), w);
    assert |FullTrace[..1]| == 1 && |FullTrace[..2]| == 2;
  }

  /**
   * The backup is renamed back exactly when the move into place failed after
   * the backup was taken and left nothing behind; the move's last exception
   * is re-raised after all 40 attempts failed.
   */
  lemma RollbackRule(args: UpdateArgs, w: World)
    ensures PerformUpdate(args, w).rolledBack
        <==> BackupTaken(args, w) && Retried(w.install, 40).1.Raised? && !w.installLeftBehind
    ensures BackupTaken(args, w) && Retried(w.install, 40).1.Raised? ==>
              && PerformUpdate(args, w).error == Some(w.install(39).error)
              && (forall j :: 0 <= j < 40 ==> w.install(j).Raised?)
              && PerformUpdate(args, w).trace == FullTrace[..3]
  {
    BeforeInstall(args, w);
    InstalledRun(args, Resolve(args.installDir, w.cwd), w);
    if BackupTaken(args, w) && Retried(w.install, 40).1.Raised? {
      InstallFailure(args, Resolve(args.installDir, w.cwd), w);
    }
  }

  /** A pid of 0 or less is not waited for: the wait's outcome does not matter. */
  lemma NoWaitWithoutPid(args: UpdateArgs, w: World)
    requires args.appPid <= 0
    ensures PerformUpdate(args, w) == PerformUpdate(args, w.(waitOk := false))
  {
  }

  /** The relaunch starts the chosen executable of the install directory, with the frozen updater's flags. */
  lemma LaunchesChosenExe(args: UpdateArgs, w: World)
    requires PerformUpdate(args, w).command.Some?
    ensures var cmd := PerformUpdate(args, w).command.value;
            var exe := SelectMainExe(Resolve(args.installDir, w.cwd), args.exeName, w.exes, w.entries);
            && BackupTaken(args, w) && exe.Success? && cmd == LaunchCommand(exe.value, w.frozen, w.updaterPath)
  {
  }
}
