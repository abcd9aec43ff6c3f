/**
 * The decision rules around running the scanner: whether `--no-git` is in
 * force, the argument list of `run_gitleaks`, which exit codes count as
 * success, and how the downloaded asset is unpacked, judged by its URL.
 */
module Runner {
  import opened PyStr

  /** `--no-git` is used when asked for, or when the repository has no `.git` directory. */
  function EffectiveNoGit(requested: bool, hasGitDir: bool): (noGit: bool)
    ensures !hasGitDir ==> noGit
    ensures hasGitDir ==> noGit == requested
  {
    requested || !hasGitDir
  }

  /** The argument list: `detect`, the optional `--no-git`, and a JSON report at `reportPath`. */
  method BuildCommand(gitleaksPath: string, reportPath: string, noGit: bool) returns (cmd: seq<string>)
    ensures |cmd| == if noGit then 7 else 6
    ensures cmd[..2] == [gitleaksPath, "detect"]
    ensures cmd[2] == "--no-git" <==> noGit
    ensures cmd[|cmd| - 4..] == ["-f", "json", "-r", reportPath]
    ensures cmd == [gitleaksPath, "detect"] + (if noGit then ["--no-git"] else []) + ["-f", "json", "-r", reportPath]
  {
    cmd := [gitleaksPath, "detect"];
    if noGit {
      cmd := cmd + ["--no-git"];
    }
    cmd := cmd + ["-f", "json", "-r", reportPath];
  }

  /** How a scanner run ends: its report is there to read, or the wrapper calls `sys.exit` with the scanner's code. */
  datatype RunOutcome = ReportWritten | Fatal(exitCode: int)

  /** Exit code 0 (no leaks) and 1 (leaks found) are both success. */
  function ExitRule(code: int): (r: RunOutcome)
    ensures r.ReportWritten? <==> code == 0 || code == 1
    ensures r.Fatal? ==> r.exitCode == code && r.exitCode != 0
  {
    if code == 0 || code == 1 then ReportWritten else Fatal(code)
  }

  /**
   * `run_gitleaks`, with the process run as a parameter: `exec` gives the
   * exit code of the argument list run in the repository directory.
   */
  method RunGitleaks(gitleaksPath: string, reportPath: string, noGit: bool, repoLocation: string,
                     exec: (seq<string>, string) -> int)
    returns (cmd: seq<string>, outcome: RunOutcome)
    ensures |cmd| >= 6 && cmd[0] == gitleaksPath && cmd[|cmd| - 1] == reportPath
    ensures (cmd[2] == "--no-git") <==> noGit
    ensures cmd == [gitleaksPath, "detect"] + (if noGit then ["--no-git"] else []) + ["-f", "json", "-r", reportPath]
    ensures outcome.ReportWritten? <==> exec(cmd, repoLocation) == 0 || exec(cmd, repoLocation) == 1
    ensures outcome.Fatal? ==> outcome.exitCode == exec(cmd, repoLocation)
  {
    cmd := BuildCommand(gitleaksPath, reportPath, noGit);
    assert cmd[0] == cmd[..2][0];
    assert cmd[|cmd| - 1] == cmd[|cmd| - 4..][3];
    outcome := ExitRule(exec(cmd, repoLocation));
  }

  /** How the downloaded asset is unpacked. */
  datatype ArchiveKind = Zip | TarGz | Plain

  function ArchiveKindOf(url: string): (k: ArchiveKind)
    ensures k == Zip <==> EndsWith(url, ".zip")
    ensures k == TarGz <==> !EndsWith(url, ".zip") && (EndsWith(url, ".tar.gz") || EndsWith(url, ".tgz"))
    ensures k == Plain <==> !EndsWith(url, ".zip") && !EndsWith(url, ".tar.gz") && !EndsWith(url, ".tgz")
  {
    if EndsWith(url, ".zip") then Zip
    else if EndsWith(url, ".tar.gz") || EndsWith(url, ".tgz") then TarGz
    else Plain
  }

  /** The three suffixes are told apart whatever precedes them. */
  lemma ArchiveKindBySuffix(base: string)
    ensures ArchiveKindOf(base + ".zip") == Zip
    ensures ArchiveKindOf(base + ".tar.gz") == TarGz
    ensures ArchiveKindOf(base + ".tgz") == TarGz
  {
    var z, t, g := base + ".zip", base + ".tar.gz", base + ".tgz";
    assert z[|z| - 4..] == ".zip";
    assert t[|t| - 7..] == ".tar.gz";
    assert t[|t| - 1] == 'z';
    assert g[|g| - 4..] == ".tgz";
    assert g[|g| - 2] == 'g';
  }
}
