/** The five package managers both implementations know, in the order they
    are probed, and the upgrade command each one runs for a single package.
    Go's `pm.Manager` is a string type, so a manager here is a string and a
    name outside the five is representable. */
module Managers {
  import opened Wrappers

  const Apt := "apt"
  const Dnf := "dnf"
  const Yum := "yum"
  const Pacman := "pacman"
  const Zypper := "zypper"

  /** The probing priority: apt, then dnf, yum, pacman, zypper. */
  const Priority: seq<string> := [Apt, Dnf, Yum, Pacman, Zypper]

  predicate Known(m: string) {
    m in Priority
  }

  /** The command that lists the upgradable packages, the same in both
      implementations: `apt list --upgradable`, `dnf check-update`,
      `yum check-update`, `pacman -Qu`, `zypper list-updates`. */
  function ListCommand(m: string): (argv: Option<seq<string>>)
    ensures argv.Some? <==> Known(m)
    ensures argv.Some? ==> argv.value != [] && argv.value[0] == m
  {
    if m == Apt then Some(["apt", "list", "--upgradable"])
    else if m == Dnf then Some(["dnf", "check-update"])
    else if m == Yum then Some(["yum", "check-update"])
    else if m == Pacman then Some(["pacman", "-Qu"])
    else if m == Zypper then Some(["zypper", "list-updates"])
    else None
  }

  /** How a child process ended, as the caller observes it: it ran and
      exited with status 0, it ran and exited otherwise, or it could not be
      started at all (the binary is missing). */
  datatype CmdOutcome = ExitedZero | ExitedNonZero | StartFailed

  /** The command line that upgrades one package: `apt-get install -y p`,
      `dnf upgrade -y p`, `yum update -y p`, `pacman -S --noconfirm p`,
      `zypper --non-interactive update p`; none for an unknown manager.
      The package name is always passed as one final argument. */
  function UpgradeCommand(m: string, p: string): (argv: Option<seq<string>>)
    ensures argv.Some? <==> Known(m)
    ensures argv.Some? ==>
      |argv.value| == 4 && argv.value[3] == p &&
      argv.value[0] == (if m == Apt then "apt-get" else m)
  {
    if m == Apt then Some(["apt-get", "install", "-y", p])
    else if m == Dnf then Some(["dnf", "upgrade", "-y", p])
    else if m == Yum then Some(["yum", "update", "-y", p])
    else if m == Pacman then Some(["pacman", "-S", "--noconfirm", p])
    else if m == Zypper then Some(["zypper", "--non-interactive", "update", p])
    else None
  }

  /** Different packages give different command lines, so every attempted
      command names exactly one package. */
  lemma UpgradeCommandInjective(m: string, p: string, q: string)
    requires Known(m) && UpgradeCommand(m, p) == UpgradeCommand(m, q)
    ensures p == q
  {
    assert UpgradeCommand(m, p).value[3] == p;
  }

  /** `attempted` holds, in order, the upgrade commands of the first
      `|attempted|` packages. */
  ghost predicate CommandsFor(m: string, pkgs: seq<string>, attempted: seq<seq<string>>) {
    |attempted| <= |pkgs| &&
    forall i :: 0 <= i < |attempted| ==> UpgradeCommand(m, pkgs[i]) == Some(attempted[i])
  }

  /** The commands run name the packages one to one: two package lists
      whose first commands are the same attempted commands agree on those
      packages. */
  lemma CommandsForDetermine(m: string, pkgs: seq<string>, qkgs: seq<string>, attempted: seq<seq<string>>)
    requires Known(m) && CommandsFor(m, pkgs, attempted) && CommandsFor(m, qkgs, attempted)
    ensures pkgs[..|attempted|] == qkgs[..|attempted|]
  {
    forall i | 0 <= i < |attempted|
      ensures pkgs[i] == qkgs[i]
    {
      UpgradeCommandInjective(m, pkgs[i], qkgs[i]);
    }
  }

  /** Running the next package's command extends the attempted commands. */
  lemma CommandsForSnoc(m: string, pkgs: seq<string>, attempted: seq<seq<string>>, argv: seq<string>)
    requires CommandsFor(m, pkgs, attempted) && |attempted| < |pkgs|
    requires UpgradeCommand(m, pkgs[|attempted|]) == Some(argv)
    ensures CommandsFor(m, pkgs, attempted + [argv])
  {
    var next := attempted + [argv];
    forall i | 0 <= i < |next| ensures UpgradeCommand(m, pkgs[i]) == Some(next[i]) {
      if i < |attempted| {
        assert next[i] == attempted[i];
      }
    }
  }

  /** The output of the manager's listing command. */
  function Listing(mgr: string, listOutput: seq<string> -> string): string {
    match ListCommand(mgr)
    case Some(argv) => listOutput(argv)
    case None => ""
  }
}
