/** The Go package `internal/pm`: which package manager the host has, the
    packages its "list upgradable" command reports, and the per-package
    upgrade loop. The output of the listing command is an input string and
    the outcome of each upgrade command comes from the `run` oracle. */
module Pm {
  import opened Wrappers
  import opened Lists
  import opened Text
  import opened StringOrder
  import opened Managers

  // ---------------------------------------------------------------------
  // Detect

  /** `pm.Detect` over the "binary is on PATH" probe: the first manager of
      the priority list whose binary is found, or "" when none is. */
  function Detect(onPath: string -> bool): (m: string)
    ensures m == "" <==> forall k :: 0 <= k < |Priority| ==> !onPath(Priority[k])
    ensures m != "" ==>
      exists k :: 0 <= k < |Priority| && Priority[k] == m && onPath(m) &&
        forall j :: 0 <= j < k ==> !onPath(Priority[j])
  {
    if onPath(Apt) then (assert Priority[0] == Apt; Apt)
    else if onPath(Dnf) then (assert Priority[1] == Dnf; Dnf)
    else if onPath(Yum) then (assert Priority[2] == Yum; Yum)
    else if onPath(Pacman) then (assert Priority[3] == Pacman; Pacman)
    else if onPath(Zypper) then (assert Priority[4] == Zypper; Zypper)
    else ""
  }

  // ---------------------------------------------------------------------
  // The per-line rules of the parsers

  /** apt: the text of a non-empty line before its first "/"; a line that
      starts with "/" gives an empty name, which is dropped. */
  function AptName(line: string): (r: Option<string>)
    ensures r.Some? <==> line != [] && line[0] != '/'
    ensures r.Some? ==>
      r.value != [] && r.value <= line && '/' !in r.value &&
      (|r.value| < |line| ==> line[|r.value|] == '/')
  {
    if line == [] then None
    else
      var pkg := BeforeFirst(line, '/');
      if pkg == [] then None else Some(pkg)
  }

  /** The banner lines of `dnf`/`yum check-update` the Go parser skips. */
  const GoBanners: seq<string> := ["Last metadata expiration", "Obsoleting Packages", "Loaded plugins"]

  /** dnf and yum: the line is trimmed; an empty line, a banner line and a
      line whose first field starts with "=" are skipped; otherwise the
      name is the first whitespace-separated field. */
  function CheckUpdateName(raw: string): (r: Option<string>)
    ensures var line := TrimSpace(raw, GoIsSpace);
      (r.Some? <==> line != [] && !StartsWithAny(line, GoBanners) && line[0] != '=') &&
      (r.Some? ==> r.value != [] && r.value == Token(line, GoIsSpace))
  {
    var line := TrimSpace(raw, GoIsSpace);
    if line == [] || StartsWithAny(line, GoBanners) then None
    else
      LeadingField(line, GoIsSpace);
      var parts := Fields(line, GoIsSpace);
      if |parts| > 0 && !("=" <= parts[0]) then Some(parts[0]) else None
  }

  /** pacman: the first field of every line that is not blank. */
  function PacmanName(raw: string): (r: Option<string>)
    ensures r.Some? <==> !AllSpace(raw, GoIsSpace)
    ensures r.Some? ==> r.value != [] && r.value == Token(TrimSpace(raw, GoIsSpace), GoIsSpace)
  {
    var line := TrimSpace(raw, GoIsSpace);
    if line == [] then None
    else
      LeadingField(line, GoIsSpace);
      var parts := Fields(line, GoIsSpace);
      if |parts| > 0 then Some(parts[0]) else None
  }

  /** zypper: a table row, that is a line with at least two "|" and without
      "Package" anywhere (which skips the column header). */
  function ZypperName(line: string): (r: Option<string>)
    ensures r.Some? <==> multiset(line)['|'] >= 2 && !Contains(line, "Package")
  {
    ContainsChar(line, '|');
    if Contains(line, "|") && !Contains(line, "Package") then
      var parts := Split(line, '|');
      if |parts| >= 3 then Some(TrimSpace(parts[2], GoIsSpace)) else None
    else None
  }

  /** A zypper row `a|b|c|...`: the name is the third column, trimmed,
      unless the row mentions "Package". */
  lemma ZypperRow(a: string, b: string, c: string, rest: string)
    requires '|' !in a && '|' !in b && '|' !in c
    requires rest == [] || rest[0] == '|'
    ensures var line := a + "|" + b + "|" + c + rest;
      ZypperName(line) == if Contains(line, "Package") then None else Some(TrimSpace(c, GoIsSpace))
  {
    var line := a + "|" + b + "|" + c + rest;
    ThirdColumn(a, b, c, rest);
    ContainsChar(line, '|');
    assert line[|a|] == '|';
  }

  lemma ThirdColumn(a: string, b: string, c: string, rest: string)
    requires '|' !in a && '|' !in b && '|' !in c
    requires rest == [] || rest[0] == '|'
    ensures |Split(a + "|" + b + "|" + c + rest, '|')| >= 3
    ensures Split(a + "|" + b + "|" + c + rest, '|')[2] == c
  {
    var tail := c + rest;
    AppendAssoc(a + "|" + b + "|", c, rest);
    assert Split(a + "|" + b + "|" + tail, '|') == [a, b] + Split(tail, '|') by {
      TwoColumns(a, b, tail);
    }
    assert Split(tail, '|')[0] == c by {
      FirstColumn(c, rest);
    }
  }

  lemma TwoColumns(a: string, b: string, tail: string)
    requires '|' !in a && '|' !in b
    ensures Split(a + "|" + b + "|" + tail, '|') == [a, b] + Split(tail, '|')
  {
    var afterA := b + ['|'] + tail;
    assert a + "|" + b + "|" + tail == a + ['|'] + afterA;
    assert Split(a + ['|'] + afterA, '|') == [a] + Split(afterA, '|') by {
      SplitAt(a, afterA, '|');
    }
    assert Split(afterA, '|') == [b] + Split(tail, '|') by {
      SplitAt(b, tail, '|');
    }
    ConsCons(a, b, Split(tail, '|'));
  }

  lemma FirstColumn(c: string, rest: string)
    requires '|' !in c
    requires rest == [] || rest[0] == '|'
    ensures Split(c + rest, '|')[0] == c
  {
    SplitHead(c + rest, '|');
    assert (c + rest)[..|c|] == c;
    BeforeFirstUnique(c + rest, '|', |c|);
  }

  // ---------------------------------------------------------------------
  // The parsers

  /** The names a manager's listing yields, in output order, before
      de-duplication: apt splits the output at "\n" and ignores piece 0
      (the "Listing..." header); the others read it with a line scanner. */
  function RawNames(m: string, stdout: string): seq<string> {
    if m == Apt then FilterMap(Tail(Split(stdout, '\n')), AptName)
    else if m == Dnf || m == Yum then FilterMap(ScanLines(stdout), CheckUpdateName)
    else if m == Pacman then FilterMap(ScanLines(stdout), PacmanName)
    else if m == Zypper then FilterMap(ScanLines(stdout), ZypperName)
    else []
  }

  /** Skipping piece 0 and appending piece i. */
  lemma TailSnoc(xs: seq<string>, i: nat)
    requires 1 <= i < |xs|
    ensures Tail(xs[..i + 1]) == Tail(xs[..i]) + [xs[i]]
  {
    assert xs[..i + 1][1..] == xs[..i][1..] + [xs[i]];
  }

  /** The apt branch: piece 0 skipped, empty pieces skipped, names before
      "/" kept when non-empty. */
  method ParseApt(stdout: string) returns (pkgs: seq<string>)
    ensures pkgs == FilterMap(Tail(Split(stdout, '\n')), AptName)
  {
    var lines := Split(stdout, '\n');
    pkgs := [];
    for i := 0 to |lines|
      invariant pkgs == FilterMap(Tail(lines[..i]), AptName)
    {
      if i == 0 {
        assert Tail(lines[..1]) == [];
        continue;
      }
      TailSnoc(lines, i);
      FilterMapConcat(Tail(lines[..i]), [lines[i]], AptName);
      assert FilterMap([lines[i]], AptName) == Lift(AptName(lines[i]));
      if |lines[i]| == 0 {
        continue;
      }
      var pkg := BeforeFirst(lines[i], '/');
      if pkg != "" {
        pkgs := pkgs + [pkg];
      }
    }
    assert lines[..|lines|] == lines;
  }

  /** The dnf/yum branch: one scanned line at a time. */
  method ParseCheckUpdate(stdout: string) returns (pkgs: seq<string>)
    ensures pkgs == FilterMap(ScanLines(stdout), CheckUpdateName)
  {
    var lines := ScanLines(stdout);
    pkgs := [];
    for i := 0 to |lines|
      invariant pkgs == FilterMap(lines[..i], CheckUpdateName)
    {
      CheckUpdateStep(lines, i, pkgs);
      var line := TrimSpace(lines[i], GoIsSpace);
      if line == "" || StartsWithAny(line, GoBanners) {
        continue;
      }
      var parts := Fields(line, GoIsSpace);
      if |parts| > 0 && !("=" <= parts[0]) {
        pkgs := pkgs + [parts[0]];
      }
    }
    assert lines[..|lines|] == lines;
  }

  /** One pass of the dnf/yum loop. */
  lemma CheckUpdateStep(lines: seq<string>, i: nat, pkgs: seq<string>)
    requires i < |lines| && pkgs == FilterMap(lines[..i], CheckUpdateName)
    ensures var line := TrimSpace(lines[i], GoIsSpace);
      var parts := Fields(line, GoIsSpace);
      FilterMap(lines[..i + 1], CheckUpdateName) ==
        if line == "" || StartsWithAny(line, GoBanners) then pkgs
        else if |parts| > 0 && !("=" <= parts[0]) then pkgs + [parts[0]]
        else pkgs
  {
    FilterMapSnoc(lines, i, CheckUpdateName);
  }

  /** The pacman branch. */
  method ParsePacman(stdout: string) returns (pkgs: seq<string>)
    ensures pkgs == FilterMap(ScanLines(stdout), PacmanName)
  {
    var lines := ScanLines(stdout);
    pkgs := [];
    for i := 0 to |lines|
      invariant pkgs == FilterMap(lines[..i], PacmanName)
    {
      PacmanStep(lines, i, pkgs);
      var line := TrimSpace(lines[i], GoIsSpace);
      if line == "" {
        continue;
      }
      var parts := Fields(line, GoIsSpace);
      if |parts| > 0 {
        pkgs := pkgs + [parts[0]];
      }
    }
    assert lines[..|lines|] == lines;
  }

  /** One pass of the pacman loop. */
  lemma PacmanStep(lines: seq<string>, i: nat, pkgs: seq<string>)
    requires i < |lines| && pkgs == FilterMap(lines[..i], PacmanName)
    ensures var line := TrimSpace(lines[i], GoIsSpace);
      FilterMap(lines[..i + 1], PacmanName) ==
        if line == "" then pkgs
        else if |Fields(line, GoIsSpace)| > 0 then pkgs + [Fields(line, GoIsSpace)[0]]
        else pkgs
  {
    FilterMapSnoc(lines, i, PacmanName);
  }

  /** The zypper branch. */
  method ParseZypper(stdout: string) returns (pkgs: seq<string>)
    ensures pkgs == FilterMap(ScanLines(stdout), ZypperName)
  {
    var lines := ScanLines(stdout);
    pkgs := [];
    for i := 0 to |lines|
      invariant pkgs == FilterMap(lines[..i], ZypperName)
    {
      FilterMapSnoc(lines, i, ZypperName);
      var line := lines[i];
      if Contains(line, "|") && !Contains(line, "Package") {
        var parts := Split(line, '|');
        if |parts| >= 3 {
          pkgs := pkgs + [TrimSpace(parts[2], GoIsSpace)];
        }
      }
    }
    assert lines[..|lines|] == lines;
  }

  // ---------------------------------------------------------------------
  // uniqueSorted and Upgradable

  /** `uniqueSorted`: the names go into a set, come out in some order and
      are sorted; the result is the one strictly ascending list of the
      input's names. */
  method UniqueSorted(input: seq<string>) returns (out: seq<string>)
    ensures out == SortedUnique(input)
    ensures StrictlyAscending(out)
    ensures forall x :: x in out <==> x in input
  {
    var seen: set<string> := {};
    for i := 0 to |input|
      invariant forall x :: x in seen <==> x in input[..i]
    {
      seen := seen + {input[i]};
      assert input[..i + 1] == input[..i] + [input[i]];
    }
    assert input[..|input|] == input;
    out := [];
    var rest := seen;
    while rest != {}
      invariant rest <= seen
      invariant Distinct(out)
      invariant forall x :: x in out <==> x in seen && x !in rest
      decreases |rest|
    {
      var s :| s in rest;
      out := out + [s];
      rest := rest - {s};
    }
    SortAscending(out);
    var sorted := Sort(out);
    forall x ensures x in sorted <==> x in input {
      assert x in sorted <==> x in multiset(sorted);
    }
    SortedUniqueShape(input);
    AscendingUnique(sorted, SortedUnique(input));
    out := sorted;
  }

  /** `pm.Upgradable` on the output of the manager's listing command:
      strictly ascending, without duplicates, and with exactly the names the
      manager's parser extracts; nothing for an unknown manager; the error
      is always nil. */
  method Upgradable(m: string, stdout: string) returns (pkgs: seq<string>, err: Option<string>)
    ensures err == None
    ensures pkgs == SortedUnique(RawNames(m, stdout))
    ensures StrictlyAscending(pkgs)
    ensures forall x :: x in pkgs <==> x in RawNames(m, stdout)
    ensures !Known(m) ==> pkgs == []
  {
    var raw: seq<string>;
    if m == Apt {
      raw := ParseApt(stdout);
    } else if m == Dnf || m == Yum {
      raw := ParseCheckUpdate(stdout);
    } else if m == Pacman {
      raw := ParsePacman(stdout);
    } else if m == Zypper {
      raw := ParseZypper(stdout);
    } else {
      assert SortedUnique([]) == [];
      return [], None;
    }
    pkgs := UniqueSorted(raw);
    err := None;
  }

  // ---------------------------------------------------------------------
  // AutoUpdate

  /** The package's upgrade command exited with status 0. */
  function Succeeded(m: string, run: seq<string> -> CmdOutcome): string -> bool {
    p => UpgradeCommand(m, p).Some? && run(UpgradeCommand(m, p).value) == ExitedZero
  }

  /** `pm.AutoUpdate`: one upgrade command per package, in order, each run
      exactly once whatever happened to the previous one; the result is the
      packages whose command succeeded, in input order. With an unknown
      manager nothing is run and nothing is updated. */
  method AutoUpdate(m: string, pkgs: seq<string>, run: seq<string> -> CmdOutcome)
    returns (updated: seq<string>, attempted: seq<seq<string>>)
    ensures updated == Filter(pkgs, Succeeded(m, run))
    ensures Known(m) ==>
      |attempted| == |pkgs| && forall i :: 0 <= i < |pkgs| ==> UpgradeCommand(m, pkgs[i]) == Some(attempted[i])
    ensures !Known(m) ==> attempted == [] && updated == []
  {
    if |pkgs| == 0 {
      return [], [];
    }
    updated, attempted := [], [];
    for i := 0 to |pkgs|
      invariant updated == Filter(pkgs[..i], Succeeded(m, run))
      invariant Known(m) ==>
        |attempted| == i && forall j :: 0 <= j < i ==> UpgradeCommand(m, pkgs[j]) == Some(attempted[j])
      invariant !Known(m) ==> attempted == [] && updated == []
    {
      FilterSnoc(pkgs, i, Succeeded(m, run));
      var argv := UpgradeCommand(m, pkgs[i]);
      if argv.None? {
        continue;
      }
      var outcome := run(argv.value);
      attempted := attempted + [argv.value];
      if outcome == ExitedZero {
        updated := updated + [pkgs[i]];
      }
    }
    assert pkgs[..|pkgs|] == pkgs;
  }
}
