/** Where the Python script and the Go port agree and where they differ,
    stated over the two models side by side: detection agrees, and so does
    the upgrade loop as long as every upgrade binary can be started; the
    parsers differ in banners, trimming, the zypper field guard and
    de-duplication, and an unknown manager's packages count as updated in
    Python only. */
module CrossCheck {
  import opened Wrappers
  import opened Lists
  import opened Text
  import opened StringOrder
  import opened Managers
  import opened Pm
  import opened UpdateNotiPy

  // ---------------------------------------------------------------------
  // Detection

  /** With the same binaries present, both pick the same manager; Go's ""
      is Python's None. */
  lemma DetectAgree(onPath: string -> bool, pathExists: string -> bool)
    requires forall k :: 0 <= k < |Priority| ==> pathExists(BinDir + Priority[k]) == onPath(Priority[k])
    ensures DetectPackageManager(pathExists) == if Detect(onPath) == "" then None else Some(Detect(onPath))
  {
    assert Priority[0] == Apt && Priority[1] == Dnf && Priority[2] == Yum;
    assert Priority[3] == Pacman && Priority[4] == Zypper;
  }

  // ---------------------------------------------------------------------
  // Parsers

  /** A string that differs from `s` at position `k` is not a prefix of it. */
  lemma NotPrefix(p: string, s: string, k: nat)
    requires k < |p| && k < |s| && p[k] != s[k]
    ensures !(p <= s)
  {
  }

  /** A line with no white space at either end is its own trimming. */
  lemma Untrimmed(line: string, isSpace: char -> bool)
    requires line != [] && !isSpace(line[0]) && !isSpace(line[|line| - 1])
    ensures TrimLeft(line, isSpace) == line && TrimSpace(line, isSpace) == line
  {
  }

  /** The first word of a line that starts with one. */
  lemma FirstWord(line: string, isSpace: char -> bool, n: nat)
    requires 0 < n < |line| && NoSpace(line[..n], isSpace) && isSpace(line[n])
    ensures Token(TrimLeft(line, isSpace), isSpace) == line[..n]
  {
    assert line[0] == line[..n][0];
    TokenUnique(line, isSpace, n);
  }

  /** Go drops a line whose trimmed text starts with one of its banners. */
  lemma GoSkipsBanner(line: string, k: nat)
    requires k < |GoBanners| && GoBanners[k] <= TrimSpace(line, GoIsSpace)
    ensures CheckUpdateName(line) == None
  {
  }

  /** Python keeps the first word of a line that starts with no banner of
      its list and whose first word does not start with "=". */
  lemma PyKeepsFirstWord(banners: seq<string>, line: string, n: nat)
    requires !StartsWithAny(line, banners)
    requires 0 < n < |line| && NoSpace(line[..n], PyIsSpace) && PyIsSpace(line[n])
    requires line[0] != '='
    ensures PyCheckUpdateName(banners, line) == Some(line[..n])
  {
    FirstWord(line, PyIsSpace, n);
    assert line[..n][0] == line[0];
    assert !AllSpace(line, PyIsSpace) by {
      assert !PyIsSpace(line[..n][0]);
    }
  }

  /** The first word of the dnf metadata banner. */
  lemma LastWord(line: string)
    requires DnfBanners[0] <= line
    ensures line[..4] == "Last" && NoSpace(line[..4], PyIsSpace) && PyIsSpace(line[4])
  {
    var banner := DnfBanners[0];
    assert line[..|banner|] == banner;
    assert line[4] == banner[4] == ' ';
    assert line[..4] == banner[..4] == "Last";
    var w := line[..4];
    forall i | 0 <= i < 4 ensures !PyIsSpace(w[i]) {
      assert w[i] in "Last";
    }
  }

  /** The first word of the yum plugins banner. */
  lemma LoadedWord(line: string)
    requires YumBanners[0] <= line
    ensures line[..6] == "Loaded" && NoSpace(line[..6], PyIsSpace) && PyIsSpace(line[6])
  {
    var banner := YumBanners[0];
    assert line[..|banner|] == banner;
    assert line[6] == banner[6] == ' ';
    assert line[..6] == banner[..6] == "Loaded";
    var w := line[..6];
    forall i | 0 <= i < 6 ensures !PyIsSpace(w[i]) {
      assert w[i] in "Loaded";
    }
  }

  /** Go skips every banner for both dnf and yum; Python's yum branch does
      not know the dnf banner, so a dnf banner line yields "Last" as a
      package name there. */
  lemma YumBannerDivergence(line: string)
    requires DnfBanners[0] <= line && !GoIsSpace(line[|line| - 1])
    ensures CheckUpdateName(line) == None
    ensures PyCheckUpdateName(YumBanners, line) == Some("Last")
  {
    GoSkipsUntrimmed(line, 0);
    YumKeepsLast(line);
  }

  /** Likewise Python's dnf branch does not know the yum banner, so a yum
      banner line yields "Loaded". */
  lemma DnfBannerDivergence(line: string)
    requires YumBanners[0] <= line && !GoIsSpace(line[|line| - 1])
    ensures CheckUpdateName(line) == None
    ensures PyCheckUpdateName(DnfBanners, line) == Some("Loaded")
  {
    GoSkipsUntrimmed(line, 2);
    DnfKeepsLoaded(line);
  }

  /** Go drops a line that starts with one of its banners and does not end
      in white space. */
  lemma GoSkipsUntrimmed(line: string, k: nat)
    requires k < |GoBanners| && GoBanners[k] <= line && !GoIsSpace(line[|line| - 1])
    ensures CheckUpdateName(line) == None
  {
    assert line[0] == GoBanners[k][0];
    Untrimmed(line, GoIsSpace);
    GoSkipsBanner(line, k);
  }

  /** Python's yum branch on the dnf metadata banner. */
  lemma YumKeepsLast(line: string)
    requires DnfBanners[0] <= line
    ensures PyCheckUpdateName(YumBanners, line) == Some("Last")
  {
    LastWord(line);
    assert line[0] == 'L' && line[1] == 'a' by {
      assert line[..4][0] == line[0] && line[..4][1] == line[1];
    }
    NoYumBanner(line);
    PyKeepsFirstWord(YumBanners, line, 4);
  }

  lemma NoYumBanner(line: string)
    requires |line| >= 2 && line[0] == 'L' && line[1] == 'a'
    ensures !StartsWithAny(line, YumBanners)
  {
    NotPrefix(YumBanners[0], line, 1);
    NotPrefix(YumBanners[1], line, 0);
  }

  /** Python's dnf branch on the yum plugins banner. */
  lemma DnfKeepsLoaded(line: string)
    requires YumBanners[0] <= line
    ensures PyCheckUpdateName(DnfBanners, line) == Some("Loaded")
  {
    LoadedWord(line);
    assert line[0] == 'L' && line[1] == 'o' by {
      assert line[..6][0] == line[0] && line[..6][1] == line[1];
    }
    NoDnfBanner(line, 1);
    PyKeepsFirstWord(DnfBanners, line, 6);
  }

  /** A line that differs from the metadata banner at position `k` and
      does not start with 'O' starts with no dnf banner. */
  lemma NoDnfBanner(line: string, k: nat)
    requires k < 2 && |line| >= 2 && line[k] != DnfBanners[0][k] && line[0] != 'O'
    ensures !StartsWithAny(line, DnfBanners)
  {
    NotPrefix(DnfBanners[0], line, k);
    NotPrefix(DnfBanners[1], line, 0);
  }

  /** Go trims a line before testing the banners; Python tests the line as
      read, so an indented banner line yields its first word as a package. */
  lemma IndentedBannerDivergence(body: string)
    requires DnfBanners[1] <= body && !GoIsSpace(body[|body| - 1])
    ensures CheckUpdateName(" " + body) == None
    ensures PyCheckUpdateName(DnfBanners, " " + body) == Some("Obsoleting")
  {
    assert CheckUpdateName(" " + body) == None by {
      IndentedGo(body);
    }
    IndentedObsoleting(body);
  }

  /** Python's dnf branch on an indented obsoletes banner. */
  lemma IndentedObsoleting(body: string)
    requires DnfBanners[1] <= body
    ensures PyCheckUpdateName(DnfBanners, " " + body) == Some("Obsoleting")
  {
    ObsoletingWord(body);
    assert body[0] == 'O' by {
      assert body[..10][0] == body[0];
    }
    NoDnfBanner(" " + body, 0);
    IndentedPy(body, 10);
  }

  /** The first word of the obsoletes banner. */
  lemma ObsoletingWord(body: string)
    requires DnfBanners[1] <= body
    ensures body[..10] == "Obsoleting" && NoSpace(body[..10], PyIsSpace) && PyIsSpace(body[10])
  {
    var banner := DnfBanners[1];
    assert body[..|banner|] == banner;
    assert body[10] == banner[10] == ' ';
    assert body[..10] == banner[..10] == "Obsoleting";
    var w := body[..10];
    forall i | 0 <= i < 10 ensures !PyIsSpace(w[i]) {
      assert w[i] in "Obsoleting";
    }
  }

  /** One leading blank before an untrimmed text is all that trimming
      removes. */
  lemma LeadingBlank(body: string, isSpace: char -> bool)
    requires isSpace(' ')
    requires body != [] && !isSpace(body[0]) && !isSpace(body[|body| - 1])
    ensures TrimLeft(" " + body, isSpace) == body
    ensures TrimSpace(" " + body, isSpace) == body
  {
    assert (" " + body)[1..] == body;
    Untrimmed(body, isSpace);
  }

  /** Go's half of `IndentedBannerDivergence`. */
  lemma IndentedGo(body: string)
    requires GoBanners[1] <= body && !GoIsSpace(body[|body| - 1])
    ensures CheckUpdateName(" " + body) == None
  {
    assert body[0] == GoBanners[1][0];
    LeadingBlank(body, GoIsSpace);
    GoSkipsBanner(" " + body, 1);
  }

  /** Python's half of `IndentedBannerDivergence`: the leading blank goes
      before the first word is taken. */
  lemma IndentedPy(body: string, n: nat)
    requires !StartsWithAny(" " + body, DnfBanners)
    requires 0 < n < |body| && NoSpace(body[..n], PyIsSpace) && PyIsSpace(body[n])
    requires body[0] != '='
    ensures PyCheckUpdateName(DnfBanners, " " + body) == Some(body[..n])
  {
    var line := " " + body;
    assert line[1..] == body;
    assert body[..n][0] == body[0];
    assert TrimLeft(line, PyIsSpace) == TrimLeft(body, PyIsSpace);
    FirstWord(body, PyIsSpace, n);
    assert !AllSpace(line, PyIsSpace) by {
      assert line[1] == body[0];
    }
  }

  /** A zypper line with a single "|" and no "Package" is skipped by Go's
      field-count guard, while Python's indexing raises and aborts the whole
      listing. */
  lemma ZypperDivergence(stdout: string, i: nat)
    requires i < |PySplitLines(stdout)|
    requires var line := PySplitLines(stdout)[i];
      '|' in line && !Contains(line, "Package") && multiset(line)['|'] == 1
    ensures ZypperName(PySplitLines(stdout)[i]) == None
    ensures PyUpgradable(Zypper, stdout) == Err(IndexError)
  {
    var lines := PySplitLines(stdout);
    assert PyZypperStep(lines[i]).Raise?;
    CollectRaises(lines, PyZypperStep);
  }

  /** Go's list never repeats a name, whatever the listing; Python's
      repeats a name listed twice (`PacmanKeepsRepeats`). */
  lemma GoNeverRepeats(m: string, stdout: string)
    ensures Distinct(SortedUnique(RawNames(m, stdout)))
  {
    var s := SortedUnique(RawNames(m, stdout));
    SortedUniqueShape(RawNames(m, stdout));
    forall i, j | 0 <= i < j < |s| ensures s[i] != s[j] {
      LessIrreflexive(s[i]);
    }
  }

  // ---------------------------------------------------------------------
  // The upgrade loop

  /** With a known manager and every upgrade binary startable, Python's
      loop updates exactly the packages Go's loop updates, in the same
      order. */
  lemma {:induction false} AutoUpdateAgree(m: string, pkgs: seq<string>, run: seq<string> -> CmdOutcome)
    requires Known(m)
    requires forall i :: 0 <= i < |pkgs| ==> run(UpgradeCommand(m, pkgs[i]).value) != StartFailed
    ensures Collect(pkgs, UpdateStep(m, run)) == Ok(Filter(pkgs, Succeeded(m, run)))
    decreases |pkgs|
  {
    if pkgs != [] {
      forall i | 0 <= i < |pkgs[1..]| ensures run(UpgradeCommand(m, pkgs[1..][i]).value) != StartFailed {
        assert pkgs[1..][i] == pkgs[i + 1];
      }
      AutoUpdateAgree(m, pkgs[1..], run);
      var p := pkgs[0];
      var argv := UpgradeCommand(m, p).value;
      assert UpgradeCommand(m, p) == Some(argv);
      assert run(argv) != StartFailed;
      var rest := Filter(pkgs[1..], Succeeded(m, run));
      if run(argv) == ExitedZero {
        assert UpdateStep(m, run)(p) == Keep(p);
        assert Succeeded(m, run)(p);
        assert Filter(pkgs, Succeeded(m, run)) == [p] + rest;
      } else {
        assert UpdateStep(m, run)(p) == Skip;
        assert !Succeeded(m, run)(p);
        assert Filter(pkgs, Succeeded(m, run)) == [] + rest;
        assert [] + rest == rest;
      }
    }
  }

  /** A missing upgrade binary: Go counts that package as not updated and
      goes on; Python's loop raises at the first such package. */
  lemma StartFailedDivergence(m: string, pkgs: seq<string>, run: seq<string> -> CmdOutcome, i: nat)
    requires Known(m) && i < |pkgs|
    requires run(UpgradeCommand(m, pkgs[i]).value) == StartFailed
    ensures pkgs[i] !in Filter(pkgs, Succeeded(m, run))
    ensures Collect(pkgs, UpdateStep(m, run)) == Err(FileNotFoundError)
  {
    var f := UpdateStep(m, run);
    assert f(pkgs[i]) == Raise(FileNotFoundError);
    CollectRaises(pkgs, f);
    FilterMember(pkgs, Succeeded(m, run), pkgs[i]);
  }

  /** An unknown manager: Python counts every package as updated without
      running anything; Go updates none. */
  lemma {:induction false} UnknownManagerDivergence(m: string, pkgs: seq<string>, run: seq<string> -> CmdOutcome)
    requires !Known(m)
    ensures Collect(pkgs, UpdateStep(m, run)) == Ok(pkgs)
    ensures Filter(pkgs, Succeeded(m, run)) == []
    decreases |pkgs|
  {
    if pkgs != [] {
      UnknownManagerDivergence(m, pkgs[1..], run);
      assert UpgradeCommand(m, pkgs[0]) == None;
      assert UpdateStep(m, run)(pkgs[0]) == Keep(pkgs[0]);
      assert !Succeeded(m, run)(pkgs[0]);
      assert [pkgs[0]] + pkgs[1..] == pkgs;
    }
  }
}
