/** The Python script `update_noti.py`: manager detection by file probes,
    the per-manager parsers of the listing output (which keep the output's
    order and its repetitions, and may raise), the allow-list comprehension,
    the upgrade loop, and the message `main` builds with `+=`. The file
    probes, the listing command's output, the outcome of each upgrade
    command, the configuration file and the HTTP round trip are inputs. */
module UpdateNotiPy {
  import opened Wrappers
  import opened Lists
  import opened Text
  import opened Managers
  import opened SystemInfo
  import opened Notify
  import opened Layout

  /** The exceptions the script can let escape: `IndexError` from a parser,
      `FileNotFoundError` from a missing upgrade binary or configuration
      file, `JSONDecodeError` from a malformed configuration file. */
  datatype PyError = IndexError | FileNotFoundError | JSONDecodeError

  // ---------------------------------------------------------------------
  // detect_package_manager

  const BinDir := "/usr/bin/"

  /** `detect_package_manager` over the "path exists" probe: the first
      manager of the priority list whose binary is in /usr/bin, or None. */
  function DetectPackageManager(pathExists: string -> bool): (m: Option<string>)
    ensures m.None? <==> forall k :: 0 <= k < |Priority| ==> !pathExists(BinDir + Priority[k])
    ensures m.Some? ==>
      exists k :: 0 <= k < |Priority| && Priority[k] == m.value && pathExists(BinDir + m.value) &&
        forall j :: 0 <= j < k ==> !pathExists(BinDir + Priority[j])
  {
    if pathExists(BinDir + Apt) then (assert Priority[0] == Apt; Some(Apt))
    else if pathExists(BinDir + Dnf) then (assert Priority[1] == Dnf; Some(Dnf))
    else if pathExists(BinDir + Yum) then (assert Priority[2] == Yum; Some(Yum))
    else if pathExists(BinDir + Pacman) then (assert Priority[3] == Pacman; Some(Pacman))
    else if pathExists(BinDir + Zypper) then (assert Priority[4] == Zypper; Some(Zypper))
    else None
  }

  // ---------------------------------------------------------------------
  // The per-line rules of get_upgradable_packages

  /** apt: `line.split('/')[0]` for every non-empty line: the text before
      the first "/", the whole line when it has none; it may be empty. */
  function PyAptName(line: string): (r: Option<string>)
    ensures r.None? <==> line == []
    ensures r.Some? ==>
      r.value <= line && '/' !in r.value && (|r.value| < |line| ==> line[|r.value|] == '/')
    ensures r.Some? && '/' !in line ==> r.value == line
  {
    if line == [] then None
    else
      SplitHead(line, '/');
      Some(Split(line, '/')[0])
  }

  /** The banner prefixes the dnf branch skips. */
  const DnfBanners: seq<string> := ["Last metadata expiration", "Obsoleting Packages"]

  /** The banner prefixes the yum branch skips. */
  const YumBanners: seq<string> := ["Loaded plugins", "Obsoleting Packages"]

  /** dnf and yum, on the line as read (not stripped): an empty line or one
      that starts with a banner is skipped; otherwise the first
      whitespace-separated token is the name unless it starts with "=" or
      there is none. */
  function PyCheckUpdateName(banners: seq<string>, line: string): (r: Option<string>)
    ensures r.Some? <==>
      line != [] && !StartsWithAny(line, banners) && !AllSpace(line, PyIsSpace) &&
      !("=" <= Token(TrimLeft(line, PyIsSpace), PyIsSpace))
    ensures r.Some? ==> r.value != [] && r.value == Token(TrimLeft(line, PyIsSpace), PyIsSpace)
  {
    if line != [] && !StartsWithAny(line, banners) then
      var parts := Fields(line, PyIsSpace);
      if |parts| > 0 && !("=" <= parts[0]) then
        FirstField(line, PyIsSpace);
        Some(parts[0])
      else
        (if |parts| > 0 then FirstField(line, PyIsSpace); None else None)
    else None
  }

  /** pacman: `line.split()[0]` for every non-empty line; a line of white
      space alone has no token, and indexing raises `IndexError`. */
  function PyPacmanStep(line: string): (r: Step<string, PyError>)
    ensures r.Skip? <==> line == []
    ensures r.Raise? <==> line != [] && AllSpace(line, PyIsSpace)
    ensures r.Raise? ==> r.error == IndexError
    ensures r.Keep? ==> r.item != [] && r.item == Token(TrimLeft(line, PyIsSpace), PyIsSpace)
  {
    if line == [] then Skip
    else
      var parts := Fields(line, PyIsSpace);
      if |parts| == 0 then Raise(IndexError)
      else
        FirstField(line, PyIsSpace);
        Keep(parts[0])
  }

  /** zypper: `line.split('|')[2].strip()` for every line with a "|" and
      without "Package"; a line with a single "|" has no third piece, and
      indexing raises `IndexError`. */
  function PyZypperStep(line: string): (r: Step<string, PyError>)
    ensures r.Skip? <==> '|' !in line || Contains(line, "Package")
    ensures r.Raise? <==> '|' in line && !Contains(line, "Package") && multiset(line)['|'] < 2
    ensures r.Raise? ==> r.error == IndexError
    ensures r.Keep? ==> r.item == TrimSpace(Split(line, '|')[2], PyIsSpace)
  {
    if '|' in line && !Contains(line, "Package") then
      var parts := Split(line, '|');
      if |parts| < 3 then Raise(IndexError) else Keep(TrimSpace(parts[2], PyIsSpace))
    else Skip
  }

  /** The dnf/yum rule for one list of banners, as a per-line function. */
  function CheckName(banners: seq<string>): string -> Option<string> {
    line => PyCheckUpdateName(banners, line)
  }

  // ---------------------------------------------------------------------
  // get_upgradable_packages

  /** What `get_upgradable_packages` returns or raises for a manager and the
      output of its listing command: the names in output order, repetitions
      kept; apt drops the first line; nothing for an unknown manager. */
  function PyUpgradable(m: string, stdout: string): (r: Result<seq<string>, PyError>)
    ensures !Known(m) ==> r == Ok([])
    ensures m == Apt || m == Dnf || m == Yum ==> r.Ok?
  {
    if m == Apt then Ok(FilterMap(Tail(PySplitLines(stdout)), PyAptName))
    else if m == Dnf then Ok(FilterMap(PySplitLines(stdout), CheckName(DnfBanners)))
    else if m == Yum then Ok(FilterMap(PySplitLines(stdout), CheckName(YumBanners)))
    else if m == Pacman then Collect(PySplitLines(stdout), PyPacmanStep)
    else if m == Zypper then Collect(PySplitLines(stdout), PyZypperStep)
    else Ok([])
  }

  /** The dnf and yum branches: a loop over the lines that appends each
      accepted name. */
  method ParseCheckUpdate(banners: seq<string>, stdout: string) returns (pkgs: seq<string>)
    ensures pkgs == FilterMap(PySplitLines(stdout), CheckName(banners))
  {
    var name := CheckName(banners);
    var lines := PySplitLines(stdout);
    pkgs := [];
    for i := 0 to |lines|
      invariant pkgs == FilterMap(lines[..i], name)
    {
      FilterMapSnoc(lines, i, name);
      var line := lines[i];
      if line != "" && !StartsWithAny(line, banners) {
        var parts := Fields(line, PyIsSpace);
        if |parts| > 0 && !("=" <= parts[0]) {
          pkgs := pkgs + [parts[0]];
        }
      }
    }
    assert lines[..|lines|] == lines;
  }

  /** `get_upgradable_packages`: a comprehension for apt, pacman and
      zypper, a loop for dnf and yum. Only pacman and zypper can raise, and
      then it is the `IndexError` of the first line that has no name to
      index. */
  method GetUpgradablePackages(m: string, stdout: string) returns (r: Result<seq<string>, PyError>)
    ensures r == PyUpgradable(m, stdout)
  {
    if m == Apt {
      r := Ok(FilterMap(Tail(PySplitLines(stdout)), PyAptName));
    } else if m == Dnf {
      var pkgs := ParseCheckUpdate(DnfBanners, stdout);
      r := Ok(pkgs);
    } else if m == Yum {
      var pkgs := ParseCheckUpdate(YumBanners, stdout);
      r := Ok(pkgs);
    } else if m == Pacman {
      r := Collect(PySplitLines(stdout), PyPacmanStep);
    } else if m == Zypper {
      r := Collect(PySplitLines(stdout), PyZypperStep);
    } else {
      r := Ok([]);
    }
  }

  /** Only pacman and zypper can raise, and then it is the `IndexError` of
      the first line that has no name to index. */
  lemma PyUpgradableRaises(m: string, stdout: string)
    ensures PyUpgradable(m, stdout).Err? <==>
      (m == Pacman && exists i :: 0 <= i < |PySplitLines(stdout)| && PyPacmanStep(PySplitLines(stdout)[i]).Raise?) ||
      (m == Zypper && exists i :: 0 <= i < |PySplitLines(stdout)| && PyZypperStep(PySplitLines(stdout)[i]).Raise?)
  {
    if m == Pacman {
      CollectRaises(PySplitLines(stdout), PyPacmanStep);
    } else if m == Zypper {
      CollectRaises(PySplitLines(stdout), PyZypperStep);
    }
  }

  /** A line ended by "\n", twice over, reads as that line twice. */
  lemma LineTwice(line: string)
    requires forall j :: 0 <= j < |line| ==> !PyLineBreak(line[j])
    ensures PySplitLines(line + "\n" + line + "\n") == [line, line]
  {
    assert PySplitLines(line + "\n") == [line] by {
      PySplitLinesCons(line, "");
      assert line + "\n" + "" == line + "\n";
      assert PySplitLines("") == [];
    }
    assert PySplitLines(line + "\n" + (line + "\n")) == [line] + [line] by {
      PySplitLinesCons(line, line + "\n");
    }
    AppendAssoc(line + "\n", line, "\n");
    assert [line] + [line] == [line, line];
  }

  /** The parsers keep the listing's order and its repetitions: a name line
      that occurs twice gives its name twice, where the Go port would keep
      it once. */
  lemma PacmanKeepsRepeats(line: string)
    requires forall j :: 0 <= j < |line| ==> !PyLineBreak(line[j])
    requires PyPacmanStep(line).Keep?
    ensures PyUpgradable(Pacman, line + "\n" + line + "\n") ==
      Ok([PyPacmanStep(line).item, PyPacmanStep(line).item])
  {
    var stdout := line + "\n" + line + "\n";
    assert PyUpgradable(Pacman, stdout) == Collect(PySplitLines(stdout), PyPacmanStep);
    assert PySplitLines(stdout) == [line, line] by {
      LineTwice(line);
    }
    CollectTwice(line, PyPacmanStep);
  }

  /** The same for the dnf branch. */
  lemma DnfKeepsRepeats(line: string)
    requires forall j :: 0 <= j < |line| ==> !PyLineBreak(line[j])
    requires PyCheckUpdateName(DnfBanners, line).Some?
    ensures PyUpgradable(Dnf, line + "\n" + line + "\n") ==
      Ok([PyCheckUpdateName(DnfBanners, line).value, PyCheckUpdateName(DnfBanners, line).value])
  {
    var stdout := line + "\n" + line + "\n";
    var f := CheckName(DnfBanners);
    assert PyUpgradable(Dnf, stdout) == Ok(FilterMap(PySplitLines(stdout), f));
    assert PySplitLines(stdout) == [line, line] by {
      LineTwice(line);
    }
    assert FilterMap([line, line], f) == [f(line).value, f(line).value] by {
      assert f(line) == PyCheckUpdateName(DnfBanners, line);
      FilterMapTwice(line, f);
    }
  }

  // ---------------------------------------------------------------------
  // to_update and auto_update_packages

  /** `[pkg for pkg in upgradable if pkg in auto_update]`. */
  function ToUpdate(upgradable: seq<string>, autoUpdate: seq<string>): seq<string> {
    Filter(upgradable, MemberOf(autoUpdate))
  }

  /** `to_update` holds every occurrence in `upgradable` of a package the
      allow list names, and nothing else; being a filter, it keeps the order
      of `upgradable`. */
  lemma ToUpdateSpec(upgradable: seq<string>, autoUpdate: seq<string>)
    ensures forall x :: x in ToUpdate(upgradable, autoUpdate) <==> x in upgradable && x in autoUpdate
    ensures forall x :: multiset(ToUpdate(upgradable, autoUpdate))[x] == (if x in autoUpdate then multiset(upgradable)[x] else 0)
  {
    forall x ensures x in ToUpdate(upgradable, autoUpdate) <==> x in upgradable && x in autoUpdate {
      FilterMember(upgradable, MemberOf(autoUpdate), x);
    }
    forall x ensures multiset(ToUpdate(upgradable, autoUpdate))[x] ==
      (if x in autoUpdate then multiset(upgradable)[x] else 0)
    {
      FilterCount(upgradable, MemberOf(autoUpdate), x);
    }
  }

  /** One iteration of `auto_update_packages`: an unknown manager runs
      nothing and counts the package as updated; otherwise status 0 counts
      it, another status is the `CalledProcessError` that is passed over,
      and a binary that cannot be started raises `FileNotFoundError`, which
      is not caught. */
  function UpdateStep(m: string, run: seq<string> -> CmdOutcome): string -> Step<string, PyError> {
    p =>
      match UpgradeCommand(m, p)
      case None => Keep(p)
      case Some(argv) =>
        match run(argv)
        case ExitedZero => Keep(p)
        case ExitedNonZero => Skip
        case StartFailed => Raise(FileNotFoundError)
  }

  /** `auto_update_packages`. The result is what the comprehension-like
      `UpdateStep` run over the packages gives: the packages counted as
      updated, in order, or the first uncaught error. With a known manager
      each package's command is run once, in order, until one cannot be
      started; with an unknown one nothing runs and every package counts. */
  method AutoUpdatePackages(m: string, pkgs: seq<string>, run: seq<string> -> CmdOutcome)
    returns (r: Result<seq<string>, PyError>, attempted: seq<seq<string>>)
    ensures r == Collect(pkgs, UpdateStep(m, run))
    ensures !Known(m) ==> r == Ok(pkgs) && attempted == []
    ensures Known(m) ==>
      |attempted| <= |pkgs| &&
      forall i :: 0 <= i < |attempted| ==> UpgradeCommand(m, pkgs[i]) == Some(attempted[i])
    ensures Known(m) && r.Ok? ==> |attempted| == |pkgs|
    ensures Known(m) && r.Err? ==> attempted != [] && run(attempted[|attempted| - 1]) == StartFailed
  {
    if |pkgs| == 0 {
      return Ok([]), [];
    }
    var step := UpdateStep(m, run);
    var updated: seq<string> := [];
    attempted := [];
    for i := 0 to |pkgs|
      invariant Collect(pkgs[..i], step) == Ok(updated)
      invariant !Known(m) ==> updated == pkgs[..i] && attempted == []
      invariant Known(m) ==> |attempted| == i && CommandsFor(m, pkgs, attempted)
    {
      UpdateStepAt(pkgs, i, m, run, updated);
      var pkg := pkgs[i];
      var argv := UpgradeCommand(m, pkg);
      if argv.Some? {
        var outcome := run(argv.value);
        CommandsForSnoc(m, pkgs, attempted, argv.value);
        attempted := attempted + [argv.value];
        if outcome == StartFailed {
          return Err(FileNotFoundError), attempted;
        }
        if outcome == ExitedNonZero {
          continue;
        }
      } else {
        assert pkgs[..i + 1] == pkgs[..i] + [pkg];
      }
      updated := updated + [pkg];
    }
    assert pkgs[..|pkgs|] == pkgs;
    r := Ok(updated);
  }

  /** One pass of the `auto_update_packages` loop. */
  lemma UpdateStepAt(pkgs: seq<string>, i: nat, m: string, run: seq<string> -> CmdOutcome, updated: seq<string>)
    requires i < |pkgs| && Collect(pkgs[..i], UpdateStep(m, run)) == Ok(updated)
    ensures var argv := UpgradeCommand(m, pkgs[i]);
      Collect(pkgs[..i + 1], UpdateStep(m, run)) ==
        if argv.None? || run(argv.value) == ExitedZero then Ok(updated + [pkgs[i]])
        else if run(argv.value) == ExitedNonZero then Ok(updated)
        else Err(FileNotFoundError)
    ensures var argv := UpgradeCommand(m, pkgs[i]);
      argv.Some? && run(argv.value) == StartFailed ==>
        Collect(pkgs, UpdateStep(m, run)) == Err(FileNotFoundError)
  {
    var step := UpdateStep(m, run);
    CollectSnoc(pkgs, i, step);
    if step(pkgs[i]).Raise? {
      CollectRaiseAt(pkgs, i, step);
    }
  }

  // ---------------------------------------------------------------------
  // The messages

  /** The five host lines, with bold labels. */
  function PyFieldLines(sys: Info, mgr: string): seq<string> {
    [ "📅 **Time:** `" + sys.time + "`",
      "🖥️ **Host:** `" + sys.hostname + "` (`" + sys.ip + "`)",
      "💻 **OS:** `" + sys.os + "`",
      "⏰ **Uptime:** `" + sys.uptime + "`",
      "📦 **Package Manager:** `" + mgr + "`" ]
  }

  const TitleLine := "🔍 *SYSTEM UPDATE CHECK* 🔍"

  /** The nine lines both messages start with: rule, title, rule, the host
      lines, rule. */
  function PrefixLines(sys: Info, mgr: string): (ls: seq<string>)
    ensures |ls| == 9
  {
    [Rule(), TitleLine, Rule()] + PyFieldLines(sys, mgr) + [Rule()]
  }

  const StatusUpToDate := "✅ **STATUS:** " + "All packages are up to date! 🎉"
  const StatusCompleted := "✅ **STATUS:** " + "Updates completed successfully! 🚀"
  const StatusNoneUpdated := "⚠️ **STATUS:** " + "Updates available but none auto-updated"

  function AvailableTitle(n: nat): string {
    "🔄 **AVAILABLE UPDATES (" + DecimalString(n) + "):**"
  }

  function UpdatedTitle(n: nat): string {
    "🔧 **AUTO-UPDATED (" + DecimalString(n) + "):**"
  }

  /** The available block: up to ten packages one bullet each (joined by
      newlines, so no blank line follows), more on one comma-separated
      line. */
  function AvailableLines(up: seq<string>): seq<string> {
    if |up| <= 10 then [AvailableTitle(|up|)] + JoinedLines(Bullets(up, "• "))
    else [AvailableTitle(|up|), Inline(up)]
  }

  /** The auto-updated block with its closing rule, only when something was
      updated: up to five packages one bullet each, more on one line. */
  function UpdatedLines(updated: seq<string>): seq<string> {
    if updated == [] then []
    else if |updated| <= 5 then [UpdatedTitle(|updated|)] + JoinedLines(Bullets(updated, "✅ ")) + [Rule()]
    else [UpdatedTitle(|updated|), Inline(updated), Rule()]
  }

  /** The lines of the report `main` sends when updates are available. */
  function ReportLines(sys: Info, mgr: string, up: seq<string>, updated: seq<string>): seq<string> {
    PrefixLines(sys, mgr) + AvailableLines(up) + [Rule()] + UpdatedLines(updated) +
    [if updated != [] then StatusCompleted else StatusNoneUpdated, Rule()]
  }

  function ReportMessage(sys: Info, mgr: string, up: seq<string>, updated: seq<string>): string {
    Join(ReportLines(sys, mgr, up, updated), "\n")
  }

  /** The lines of the message `main` sends when nothing is upgradable. */
  function UpToDateLines(sys: Info, mgr: string): seq<string> {
    PrefixLines(sys, mgr) + [StatusUpToDate, Rule()]
  }

  function UpToDateMessage(sys: Info, mgr: string): string {
    Join(UpToDateLines(sys, mgr), "\n")
  }

  /** The first nine `msg +=` steps, each adding one line and its newline. */
  method ComposePrefix(sys: Info, mgr: string) returns (msg: string)
    ensures msg == Unlines(PrefixLines(sys, mgr))
  {
    ghost var lines: seq<string> := [];
    var line := Rule();
    AppendLine("", lines, line);
    msg, lines := line + "\n", lines + [line];
    line := TitleLine;
    AppendLine(msg, lines, line);
    msg, lines := msg + line + "\n", lines + [line];
    line := Rule();
    AppendLine(msg, lines, line);
    msg, lines := msg + line + "\n", lines + [line];
    line := "📅 **Time:** `" + sys.time + "`";
    AppendLine(msg, lines, line);
    msg, lines := msg + line + "\n", lines + [line];
    line := "🖥️ **Host:** `" + sys.hostname + "` (`" + sys.ip + "`)";
    AppendLine(msg, lines, line);
    msg, lines := msg + line + "\n", lines + [line];
    line := "💻 **OS:** `" + sys.os + "`";
    AppendLine(msg, lines, line);
    msg, lines := msg + line + "\n", lines + [line];
    line := "⏰ **Uptime:** `" + sys.uptime + "`";
    AppendLine(msg, lines, line);
    msg, lines := msg + line + "\n", lines + [line];
    line := "📦 **Package Manager:** `" + mgr + "`";
    AppendLine(msg, lines, line);
    msg, lines := msg + line + "\n", lines + [line];
    line := Rule();
    AppendLine(msg, lines, line);
    msg, lines := msg + line + "\n", lines + [line];
    assert lines == PrefixLines(sys, mgr);
  }

  /** The "up to date" message: the prefix, the status line, and the rule
      with no newline after it. */
  method ComposeUpToDate(sys: Info, mgr: string) returns (msg: string)
    ensures msg == UpToDateMessage(sys, mgr)
  {
    msg := ComposePrefix(sys, mgr);
    msg := msg + StatusUpToDate + "\n";
    msg := msg + Rule();
    JoinLast(PrefixLines(sys, mgr), StatusUpToDate, Rule());
  }

  /** The available block as `main` formats it. */
  lemma AvailableText(up: seq<string>)
    ensures |up| <= 10 ==>
      Unlines(AvailableLines(up)) == AvailableTitle(|up|) + "\n" + Join(Bullets(up, "• "), "\n") + "\n"
    ensures |up| > 10 ==>
      Unlines(AvailableLines(up)) == AvailableTitle(|up|) + "\n" + Inline(up) + "\n"
  {
    if |up| <= 10 {
      BlockText(AvailableTitle(|up|), JoinedLines(Bullets(up, "• ")), []);
      assert [AvailableTitle(|up|)] + JoinedLines(Bullets(up, "• ")) + [] == AvailableLines(up);
    } else {
      BlockText(AvailableTitle(|up|), [Inline(up)], []);
      assert [AvailableTitle(|up|)] + [Inline(up)] + [] == AvailableLines(up);
    }
  }

  /** The auto-updated block with its closing rule, as `main` formats it. */
  lemma UpdatedText(updated: seq<string>)
    ensures 0 < |updated| <= 5 ==>
      Unlines(UpdatedLines(updated)) ==
        UpdatedTitle(|updated|) + "\n" + Join(Bullets(updated, "✅ "), "\n") + "\n" + (Rule() + "\n")
    ensures |updated| > 5 ==>
      Unlines(UpdatedLines(updated)) == UpdatedTitle(|updated|) + "\n" + Inline(updated) + "\n" + (Rule() + "\n")
  {
    var title, rule := UpdatedTitle(|updated|), Rule();
    if 0 < |updated| <= 5 {
      JoinedBlock(title, Bullets(updated, "✅ "), rule);
    } else if |updated| > 5 {
      ThreeLines(title, Inline(updated), rule);
    }
  }

  /** The report as `main` builds it with `msg +=`. */
  method ComposeReport(sys: Info, mgr: string, up: seq<string>, updated: seq<string>)
    returns (msg: string)
    ensures msg == ReportMessage(sys, mgr, up, updated)
  {
    msg := ComposePrefix(sys, mgr);
    ghost var lines := PrefixLines(sys, mgr);
    var available: string;
    if |up| <= 10 {
      var packageList := Join(Bullets(up, "• "), "\n");
      available := AvailableTitle(|up|) + "\n" + packageList + "\n";
    } else {
      available := AvailableTitle(|up|) + "\n" + Inline(up) + "\n";
    }
    AvailableText(up);
    UnlinesConcat(lines, AvailableLines(up));
    msg := msg + available;
    lines := lines + AvailableLines(up);
    UnlinesConcat(lines, [Rule()]);
    msg := msg + (Rule() + "\n");
    lines := lines + [Rule()];
    assert msg == Unlines(lines);
    var status: string;
    if |updated| > 0 {
      var block: string;
      if |updated| <= 5 {
        var updatedList := Join(Bullets(updated, "✅ "), "\n");
        block := UpdatedTitle(|updated|) + "\n" + updatedList + "\n";
      } else {
        block := UpdatedTitle(|updated|) + "\n" + Inline(updated) + "\n";
      }
      UpdatedText(updated);
      msg := msg + (block + (Rule() + "\n"));
      status := StatusCompleted;
    } else {
      status := StatusNoneUpdated;
    }
    UnlinesConcat(lines, UpdatedLines(updated));
    lines := lines + UpdatedLines(updated);
    assert msg == Unlines(lines);
    msg := msg + status;
    msg := msg + ("\n" + Rule());
    JoinLast(lines, status, Rule());
    assert lines + [status, Rule()] == ReportLines(sys, mgr, up, updated);
  }

  // ---------------------------------------------------------------------
  // main

  /** How the script ended: `sys.exit(code)` or a normal return (code 0),
      or an exception nobody caught. */
  datatype Exit = Exited(code: int) | Uncaught(error: PyError)

  /** A call of `send_slack_message`: the text, the request it posted, and
      whether it failed, in which case a failure line was printed and the
      script went on. */
  datatype PySend = PySend(text: string, request: Request, failed: bool)

  /** What a run did: how it ended, the lines it printed, whether it read
      the configuration file, the upgrade commands it ran, and the message
      it sent. `printed` leaves out the "Failed to send Slack message: ..."
      line a failed send prints, since its text is the exception's; `sent`
      records that failure as `failed`. */
  datatype PyOutcome = PyOutcome(
    exit: Exit, printed: seq<string>, configRead: bool,
    attempted: seq<seq<string>>, sent: Option<PySend>)

  /** `send_slack_message`: `{"text": text}` posted to the fixed webhook;
      any exception, a non-2xx status included, is caught. */
  function SendSlackMessage(webhook: string, text: string, post: Request -> HttpResult): (s: PySend)
    ensures s.request == Request(webhook, SlackMessage(text, [])) && s.text == text
    ensures !s.failed <==> exists status :: post(s.request) == Response(status) && 200 <= status < 300
  {
    var req := Request(webhook, SlackMessage(text, []));
    var h := post(req);
    assert h.Response? ==> post(req) == Response(h.status);
    PySend(text, req, Classify(h).Some?)
  }

  /** `main`. Without a package manager it prints a line and exits 1; an
      exception from the parser ends it; with nothing upgradable it sends
      the "up to date" message without reading the configuration or running
      anything; otherwise it reads `auto_update` from the configuration
      (an empty list when the key is missing), runs the upgrades of the
      upgradable packages on that list and sends the report. The
      configuration is the result of reading and decoding its file. */
  method Run(pathExists: string -> bool, sys: Info, listOutput: seq<string> -> string,
             config: Result<Option<seq<string>>, PyError>, run: seq<string> -> CmdOutcome,
             webhook: string, post: Request -> HttpResult)
    returns (o: PyOutcome)
    ensures DetectPackageManager(pathExists).None? ==>
      o == PyOutcome(Exited(1), ["No supported package manager found."], false, [], None)
    ensures DetectPackageManager(pathExists).Some? ==>
      var mgr := DetectPackageManager(pathExists).value;
      var up := PyUpgradable(mgr, Listing(mgr, listOutput));
      o.printed == [] &&
      (up.Err? ==> o == PyOutcome(Uncaught(up.error), [], false, [], None)) &&
      (up == Ok([]) ==>
        o == PyOutcome(Exited(0), [], false, [], Some(SendSlackMessage(webhook, UpToDateMessage(sys, mgr), post)))) &&
      (up.Ok? && up.value != [] && config.Err? ==>
        o == PyOutcome(Uncaught(config.error), [], true, [], None)) &&
      (up.Ok? && up.value != [] && config.Ok? ==>
        var toUpdate := ToUpdate(up.value, config.value.GetOr([]));
        var updated := Collect(toUpdate, UpdateStep(mgr, run));
        o.configRead &&
        |o.attempted| <= |toUpdate| &&
        (forall i :: 0 <= i < |o.attempted| ==> UpgradeCommand(mgr, toUpdate[i]) == Some(o.attempted[i])) &&
        (updated.Err? ==> o.exit == Uncaught(updated.error) && o.sent == None) &&
        (updated.Ok? ==>
          o.exit == Exited(0) && |o.attempted| == |toUpdate| &&
          o.sent == Some(SendSlackMessage(webhook, ReportMessage(sys, mgr, up.value, updated.value), post))))
  {
    var found := DetectPackageManager(pathExists);
    if found.None? {
      return PyOutcome(Exited(1), ["No supported package manager found."], false, [], None);
    }
    var mgr := found.value;
    var argv := ListCommand(mgr).value;
    var upgradable := GetUpgradablePackages(mgr, listOutput(argv));
    if upgradable.Err? {
      return PyOutcome(Uncaught(upgradable.error), [], false, [], None);
    }
    if upgradable.value == [] {
      var msg := ComposeUpToDate(sys, mgr);
      return PyOutcome(Exited(0), [], false, [], Some(SendSlackMessage(webhook, msg, post)));
    }
    if config.Err? {
      return PyOutcome(Uncaught(config.error), [], true, [], None);
    }
    var autoUpdate := config.value.GetOr([]);
    var toUpdate := ToUpdate(upgradable.value, autoUpdate);
    var updated, attempted := AutoUpdatePackages(mgr, toUpdate, run);
    if updated.Err? {
      return PyOutcome(Uncaught(updated.error), [], true, attempted, None);
    }
    var msg := ComposeReport(sys, mgr, upgradable.value, updated.value);
    return PyOutcome(Exited(0), [], true, attempted, Some(SendSlackMessage(webhook, msg, post)));
  }

  // ---------------------------------------------------------------------
  // The shape of the report

  lemma PrefixOneLine(sys: Info, mgr: string)
    requires InfoOneLine(sys) && NoNewline(mgr)
    ensures NoNewlines(PrefixLines(sys, mgr))
  {
    RuleNoNewline();
    assert NoNewline(TitleLine);
    PyFieldsOneLine(sys, mgr);
    NoNewlinesConcat([Rule(), TitleLine, Rule()], PyFieldLines(sys, mgr));
    NoNewlinesConcat([Rule(), TitleLine, Rule()] + PyFieldLines(sys, mgr), [Rule()]);
  }

  lemma PyFieldsOneLine(sys: Info, mgr: string)
    requires InfoOneLine(sys) && NoNewline(mgr)
    ensures NoNewlines(PyFieldLines(sys, mgr))
  {
    var f := PyFieldLines(sys, mgr);
    FieldLabelsOneLine();
    assert NoNewline(f[0]) by {
      Wrapped("📅 **Time:** `", sys.time, "`");
    }
    assert NoNewline(f[1]) by {
      Wrapped("🖥️ **Host:** `", sys.hostname, "` (`");
      Wrapped("🖥️ **Host:** `" + sys.hostname + "` (`", sys.ip, "`)");
    }
    assert NoNewline(f[2]) by {
      Wrapped("💻 **OS:** `", sys.os, "`");
    }
    assert NoNewline(f[3]) by {
      Wrapped("⏰ **Uptime:** `", sys.uptime, "`");
    }
    assert NoNewline(f[4]) by {
        Wrapped("📦 **Package Manager:** `", mgr, "`");
    }
  }

  /** The fixed text of the host lines. */
  lemma FieldLabelsOneLine()
    ensures NoNewline("📅 **Time:** `") && NoNewline("🖥️ **Host:** `") && NoNewline("` (`")
    ensures NoNewline("`)") && NoNewline("💻 **OS:** `") && NoNewline("⏰ **Uptime:** `")
    ensures NoNewline("📦 **Package Manager:** `") && NoNewline("`")
  {
  }

  lemma AvailableOneLine(up: seq<string>)
    requires NoNewlines(up)
    ensures NoNewlines(AvailableLines(up))
  {
    DecimalNoNewline(|up|);
    if |up| <= 10 {
      BulletsNoNewlines(up, "• ");
      if up == [] {
        assert NoNewline("");
      }
      NoNewlinesConcat([AvailableTitle(|up|)], JoinedLines(Bullets(up, "• ")));
    } else {
      InlineNoNewline(up);
    }
  }

  lemma UpdatedOneLine(updated: seq<string>)
    requires NoNewlines(updated)
    ensures NoNewlines(UpdatedLines(updated))
  {
    DecimalNoNewline(|updated|);
    RuleNoNewline();
    if 0 < |updated| <= 5 {
      BulletsNoNewlines(updated, "✅ ");
      NoNewlinesConcat([UpdatedTitle(|updated|)], Bullets(updated, "✅ "));
      NoNewlinesConcat([UpdatedTitle(|updated|)] + Bullets(updated, "✅ "), [Rule()]);
    } else if |updated| > 5 {
      InlineNoNewline(updated);
    }
  }

  lemma StatusOneLine(status: string)
    requires status == StatusCompleted || status == StatusNoneUpdated
    ensures NoNewlines([status, Rule()])
  {
    RuleNoNewline();
    assert NoNewline(StatusCompleted) && NoNewline(StatusNoneUpdated);
  }

  lemma ReportLinesOneLine(sys: Info, mgr: string, up: seq<string>, updated: seq<string>)
    requires InfoOneLine(sys) && NoNewline(mgr) && NoNewlines(up) && NoNewlines(updated)
    ensures NoNewlines(ReportLines(sys, mgr, up, updated))
  {
    RuleNoNewline();
    PrefixOneLine(sys, mgr);
    AvailableOneLine(up);
    UpdatedOneLine(updated);
    var status := if updated != [] then StatusCompleted else StatusNoneUpdated;
    var p := PrefixLines(sys, mgr);
    NoNewlinesConcat(p, AvailableLines(up));
    NoNewlinesConcat(p + AvailableLines(up), [Rule()]);
    NoNewlinesConcat(p + AvailableLines(up) + [Rule()], UpdatedLines(updated));
    StatusOneLine(status);
    NoNewlinesConcat(p + AvailableLines(up) + [Rule()] + UpdatedLines(updated), [status, Rule()]);
  }

  /** A report built from one-line host facts and package names splits at
      its newlines into exactly its lines. */
  lemma ReportSplitsIntoLines(sys: Info, mgr: string, up: seq<string>, updated: seq<string>)
    requires InfoOneLine(sys) && NoNewline(mgr) && NoNewlines(up) && NoNewlines(updated)
    ensures Split(ReportMessage(sys, mgr, up, updated), '\n') == ReportLines(sys, mgr, up, updated)
  {
    ReportLinesOneLine(sys, mgr, up, updated);
    SplitJoinedLines(ReportLines(sys, mgr, up, updated));
  }

  /** The available block alone, for a non-empty list: its count, then one
      bullet per package when there are at most ten, else the list. */
  lemma AvailableShape(up: seq<string>)
    requires up != []
    ensures var avail := AvailableLines(up);
      avail[0] == AvailableTitle(|up|) &&
      (|up| <= 10 ==> |avail| == |up| + 1 && forall i :: 0 <= i < |up| ==> avail[1 + i] == Bullet("• ", up[i])) &&
      (|up| > 10 ==> |avail| == 2 && avail[1] == Inline(up))
  {
  }

  /** The auto-updated block alone: nothing when nothing was updated; else
      its count, then one bullet per package and the rule when there are at
      most five, else the list and the rule. */
  lemma UpdatedShape(updated: seq<string>)
    ensures var upd := UpdatedLines(updated);
      (updated == [] <==> upd == []) &&
      (updated != [] ==> upd[0] == UpdatedTitle(|updated|)) &&
      (0 < |updated| <= 5 ==>
        |upd| == |updated| + 2 && forall i :: 0 <= i < |updated| ==> upd[1 + i] == Bullet("✅ ", updated[i])) &&
      (|updated| > 5 ==> |upd| == 3 && upd[1] == Inline(updated))
  {
  }

  /** The lines of a report: the nine-line prefix, the available block, a
      rule, the auto-updated block, the status and a closing rule; the
      status says "completed" exactly when something was updated. */
  lemma ReportLinesParts(sys: Info, mgr: string, up: seq<string>, updated: seq<string>)
    ensures Framed(ReportLines(sys, mgr, up, updated), AvailableLines(up), UpdatedLines(updated),
                   if updated != [] then StatusCompleted else StatusNoneUpdated, Rule())
  {
    var status := if updated != [] then StatusCompleted else StatusNoneUpdated;
    var pre := PrefixLines(sys, mgr);
    assert ReportLines(sys, mgr, up, updated) == pre + AvailableLines(up) + [Rule()] + UpdatedLines(updated) + [status, Rule()];
    Positions(pre, AvailableLines(up), Rule(), UpdatedLines(updated), status);
  }

  /** Line by line, the report `main` sends for a non-empty `upgradable`
      starts its available block, after the nine prefix lines, with the
      count; then comes one bullet per package when there are at most ten,
      else the comma-separated list; then a rule. */
  lemma ReportAvailableShape(sys: Info, mgr: string, up: seq<string>, updated: seq<string>)
    requires up != []
    ensures var ls := ReportLines(sys, mgr, up, updated);
      var a := |AvailableLines(up)|;
      |ls| >= 12 + a &&
      ls[9] == AvailableTitle(|up|) &&
      (|up| <= 10 ==> a == |up| + 1 && forall i :: 0 <= i < |up| ==> ls[10 + i] == Bullet("• ", up[i])) &&
      (|up| > 10 ==> a == 2 && ls[10] == Inline(up)) &&
      ls[9 + a] == Rule()
  {
    var status := if updated != [] then StatusCompleted else StatusNoneUpdated;
    ReportLinesParts(sys, mgr, up, updated);
    AvailableInReport(ReportLines(sys, mgr, up, updated), up, UpdatedLines(updated), status);
  }

  /** Line by line, the report has an auto-updated block only when
      something was updated: its count, then one bullet per package when at
      most five, else the list. */
  lemma ReportUpdatedShape(sys: Info, mgr: string, up: seq<string>, updated: seq<string>)
    ensures UpdatedBlockAt(ReportLines(sys, mgr, up, updated), |AvailableLines(up)|, updated)
  {
    var status := if updated != [] then StatusCompleted else StatusNoneUpdated;
    ReportLinesParts(sys, mgr, up, updated);
    UpdatedInReport(ReportLines(sys, mgr, up, updated), AvailableLines(up), updated, status);
  }

  /** The report ends with its status, which says "completed" exactly when
      something was updated, and a rule. */
  lemma ReportStatusShape(sys: Info, mgr: string, up: seq<string>, updated: seq<string>)
    ensures var ls := ReportLines(sys, mgr, up, updated);
      |ls| >= 2 &&
      ls[|ls| - 2] == (if updated != [] then StatusCompleted else StatusNoneUpdated) &&
      ls[|ls| - 1] == Rule()
  {
    ReportLinesParts(sys, mgr, up, updated);
  }

  /** The available block read off lines framed like a report. */
  lemma AvailableInReport(ls: seq<string>, up: seq<string>, upd: seq<string>, status: string)
    requires up != []
    requires Framed(ls, AvailableLines(up), upd, status, Rule())
    ensures var a := |AvailableLines(up)|;
      |ls| >= 12 + a &&
      ls[9] == AvailableTitle(|up|) &&
      (|up| <= 10 ==> a == |up| + 1 && forall i :: 0 <= i < |up| ==> ls[10 + i] == Bullet("• ", up[i])) &&
      (|up| > 10 ==> a == 2 && ls[10] == Inline(up)) &&
      ls[9 + a] == Rule()
  {
    var avail := AvailableLines(up);
    AvailableShape(up);
    assert ls[9 + 0] == avail[0];
    if |up| <= 10 {
      forall i | 0 <= i < |up| ensures ls[10 + i] == Bullet("• ", up[i]) {
        assert ls[9 + (1 + i)] == avail[1 + i];
      }
    } else {
      assert ls[9 + 1] == avail[1];
    }
  }

  /** Report lines `ls` whose available block has `a` lines: they hold an
      auto-updated block exactly when something was updated, made of its
      count, then one bullet per package when at most five, else the list. */
  ghost predicate UpdatedBlockAt(ls: seq<string>, a: nat, updated: seq<string>) {
    |ls| >= 12 + a &&
    (updated == [] <==> |ls| == 12 + a) &&
    (updated != [] ==> ls[10 + a] == UpdatedTitle(|updated|)) &&
    (0 < |updated| <= 5 ==> forall i :: 0 <= i < |updated| ==> 11 + a + i < |ls| && ls[11 + a + i] == Bullet("✅ ", updated[i])) &&
    (|updated| > 5 ==> ls[11 + a] == Inline(updated))
  }

  /** The auto-updated block read off lines framed like a report. */
  lemma UpdatedInReport(ls: seq<string>, avail: seq<string>, updated: seq<string>, status: string)
    requires Framed(ls, avail, UpdatedLines(updated), status, Rule())
    ensures UpdatedBlockAt(ls, |avail|, updated)
  {
    var upd := UpdatedLines(updated);
    UpdatedShape(updated);
    if updated != [] {
      assert ls[10 + |avail| + 0] == upd[0];
    }
    if 0 < |updated| <= 5 {
      forall i | 0 <= i < |updated| ensures 11 + |avail| + i < |ls| && ls[11 + |avail| + i] == Bullet("✅ ", updated[i]) {
        assert ls[10 + |avail| + (1 + i)] == upd[1 + i];
      }
    } else if |updated| > 5 {
      assert ls[10 + |avail| + 1] == upd[1];
    }
  }
}
