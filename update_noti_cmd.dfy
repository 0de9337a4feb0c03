/** The Go command `cmd/update-noti`: its flags, the order of its steps,
    the allow-list intersection, and the Slack messages it assembles. The
    host facts, the listing command's output, the outcome of each upgrade
    command, the configuration file and the HTTP round trip are inputs. */
module UpdateNotiCmd {
  import opened Wrappers
  import opened Lists
  import opened Text
  import opened StringOrder
  import opened Managers
  import opened Pm
  import opened SystemInfo
  import opened Configuration
  import opened Notify
  import opened Layout

  // ---------------------------------------------------------------------
  // header, sep, footer, fields, bulletList

  /** `sep`: the rule and a newline. */
  function Sep(): (r: string)
    ensures |r| == 41 && r[40] == '\n' && forall i :: 0 <= i < 40 ==> r[i] == '━'
    ensures r == Unlines([Rule()])
  {
    Rule() + "\n"
  }

  /** `footer`: a newline and the rule, which ends every message. */
  function Footer(): (r: string)
    ensures |r| == 41 && r[0] == '\n' && forall i :: 1 <= i < 41 ==> r[i] == '━'
  {
    "\n" + Rule()
  }

  /** The three lines of a header: rule, title between magnifying glasses,
      rule. */
  function HeaderLines(title: string): seq<string> {
    [Rule(), "🔍 *" + title + "* 🔍", Rule()]
  }

  /** `header`: the title line framed by two `sep`s. */
  function Header(title: string): (r: string)
    ensures r == Sep() + "🔍 *" + title + "* 🔍\n" + Sep()
    ensures r == Unlines(HeaderLines(title))
  {
    RuleIsRepeat();
    var line := Repeat("━", 40);
    line + "\n" + "🔍 *" + title + "* 🔍\n" + line + "\n"
  }

  /** The five host lines, in the order Time, Host with IP, OS, Uptime,
      Package Manager. */
  function FieldLines(sys: Info, mgr: string): seq<string> {
    [ "📅 Time: `" + sys.time + "`",
      "🖥️ Host: `" + sys.hostname + "` (`" + sys.ip + "`)",
      "💻 OS: `" + sys.os + "`",
      "⏰ Uptime: `" + sys.uptime + "`",
      "📦 Package Manager: `" + mgr + "`" ]
  }

  /** `fields`: the five host lines written one after the other into a
      builder, each ended by a newline. */
  method Fields(sys: Info, mgr: string) returns (s: string)
    ensures s == Unlines(FieldLines(sys, mgr))
  {
    ghost var written: seq<string> := [];
    s := "";
    var line := "📅 Time: `" + sys.time + "`";
    AppendLine(s, written, line);
    s, written := s + line + "\n", written + [line];
    line := "🖥️ Host: `" + sys.hostname + "` (`" + sys.ip + "`)";
    AppendLine(s, written, line);
    s, written := s + line + "\n", written + [line];
    line := "💻 OS: `" + sys.os + "`";
    AppendLine(s, written, line);
    s, written := s + line + "\n", written + [line];
    line := "⏰ Uptime: `" + sys.uptime + "`";
    AppendLine(s, written, line);
    s, written := s + line + "\n", written + [line];
    line := "📦 Package Manager: `" + mgr + "`";
    AppendLine(s, written, line);
    s, written := s + line + "\n", written + [line];
    assert written == FieldLines(sys, mgr);
  }

  /** `bulletList`: one bullet line per item, in order, each ended by a
      newline; nothing for no items. */
  method BulletList(items: seq<string>, prefix: string) returns (s: string)
    ensures s == Unlines(Bullets(items, prefix))
    ensures items == [] ==> s == ""
  {
    s := "";
    for i := 0 to |items|
      invariant s == Unlines(Bullets(items[..i], prefix))
    {
      BulletStep(items, i, prefix);
      s := s + "  " + prefix + "`" + items[i] + "`\n";
    }
    assert items[..|items|] == items;
  }

  /** One more item adds its bullet line. */
  lemma BulletStep(items: seq<string>, i: nat, prefix: string)
    requires i < |items|
    ensures Unlines(Bullets(items[..i + 1], prefix)) ==
      Unlines(Bullets(items[..i], prefix)) + "  " + prefix + "`" + items[i] + "`\n"
  {
    assert Bullets(items[..i + 1], prefix) == Bullets(items[..i], prefix) + [Bullet(prefix, items[i])];
    UnlinesSnoc(Bullets(items[..i], prefix), Bullet(prefix, items[i]));
  }

  // ---------------------------------------------------------------------
  // The messages

  const Version := "dev"

  /** `versionString`. */
  function VersionString(): (s: string)
    ensures s == "update-noti dev"
  {
    "update-noti " + Version
  }

  const StatusUpToDate := "✅ STATUS: " + "All packages are up to date! 🎉"
  const StatusCompleted := "✅ STATUS: " + "Updates completed successfully! 🚀"
  const StatusNoneUpdated := "⚠️ STATUS: " + "Updates available but none auto-updated"

  function AvailableTitle(n: nat): string {
    "🔄 AVAILABLE UPDATES (" + DecimalString(n) + "):"
  }

  function UpdatedTitle(n: nat): string {
    "🛠️ AUTO-UPDATED (" + DecimalString(n) + "):"
  }

  /** The available block: up to ten packages one bullet each followed by a
      blank line, more on one comma-separated line. */
  function AvailableLines(up: seq<string>): seq<string> {
    if |up| <= 10 then [AvailableTitle(|up|)] + Bullets(up, "• ") + [""]
    else [AvailableTitle(|up|), Inline(up)]
  }

  /** The auto-updated block with its closing rule, only when something was
      updated: up to five packages one bullet each, more on one line. */
  function UpdatedLines(updated: seq<string>): seq<string> {
    if updated == [] then []
    else if |updated| <= 5 then [UpdatedTitle(|updated|)] + Bullets(updated, "✅ ") + ["", Rule()]
    else [UpdatedTitle(|updated|), Inline(updated), Rule()]
  }

  /** The lines of the report sent when updates are available. */
  function ReportLines(sys: Info, mgr: string, up: seq<string>, updated: seq<string>): seq<string> {
    HeaderLines("SYSTEM UPDATE CHECK") + FieldLines(sys, mgr) + [Rule()] + AvailableLines(up) +
    [Rule()] + UpdatedLines(updated) +
    [if updated != [] then StatusCompleted else StatusNoneUpdated, Rule()]
  }

  function ReportMessage(sys: Info, mgr: string, up: seq<string>, updated: seq<string>): string {
    Join(ReportLines(sys, mgr, up, updated), "\n")
  }

  /** The lines of the report sent when nothing is upgradable. */
  function UpToDateLines(sys: Info, mgr: string): seq<string> {
    HeaderLines("SYSTEM UPDATE CHECK") + FieldLines(sys, mgr) + [Rule(), StatusUpToDate, Rule()]
  }

  /** The "up to date" message: header, fields, sep, status, footer. */
  function UpToDateMessage(sys: Info, mgr: string): (msg: string)
    ensures msg == Join(UpToDateLines(sys, mgr), "\n")
  {
    StatusText(sys, mgr, "SYSTEM UPDATE CHECK", StatusUpToDate);
    Header("SYSTEM UPDATE CHECK") + Unlines(FieldLines(sys, mgr)) + Sep() + StatusUpToDate + Footer()
  }

  /** The lines of the installation notice. The status line has no newline
      of its own, so the rule that follows it shares its line. */
  function InstallLines(sys: Info): seq<string> {
    HeaderLines("UPDATE-NOTI INSTALLED!") +
    [ "📅 Time: `" + sys.time + "`",
      "🖥️ Host: `" + sys.hostname + "` (`" + sys.ip + "`)",
      "💻 OS: `" + sys.os + "`",
      "⏰ Uptime: `" + sys.uptime + "`",
      "📍 Location: `/opt/update-noti`",
      "📦 Method: Binary from GitHub releases",
      "✅ Status: Installation completed successfully! 🚀" + Rule(),
      "⏰ Schedule: Daily at 01:00 + boot backup",
      "🔄 Auto-update: Enabled",
      "📝 Config: `/opt/update-noti/config.json`",
      Rule() ]
  }

  /** The message of `doInstallComplete`; the status line runs straight
      into the `sep` that follows it. */
  function InstallMessage(sys: Info): (msg: string)
    ensures msg == Join(InstallLines(sys), "\n")
  {
    InstallText(sys);
    Header("UPDATE-NOTI INSTALLED!") +
      ("📅 Time: `" + sys.time + "`") + "\n" +
      ("🖥️ Host: `" + sys.hostname + "` (`" + sys.ip + "`)") + "\n" +
      ("💻 OS: `" + sys.os + "`") + "\n" +
      ("⏰ Uptime: `" + sys.uptime + "`") + "\n" +
      "📍 Location: `/opt/update-noti`" + "\n" +
      "📦 Method: Binary from GitHub releases" + "\n" +
      ("✅ Status: Installation completed successfully! 🚀" + Rule()) + "\n" +
      "⏰ Schedule: Daily at 01:00 + boot backup" + "\n" +
      "🔄 Auto-update: Enabled" + "\n" +
      "📝 Config: `/opt/update-noti/config.json`" + Footer()
  }

  lemma InstallText(sys: Info)
    ensures Join(InstallLines(sys), "\n") ==
      Header("UPDATE-NOTI INSTALLED!") +
      ("📅 Time: `" + sys.time + "`") + "\n" +
      ("🖥️ Host: `" + sys.hostname + "` (`" + sys.ip + "`)") + "\n" +
      ("💻 OS: `" + sys.os + "`") + "\n" +
      ("⏰ Uptime: `" + sys.uptime + "`") + "\n" +
      "📍 Location: `/opt/update-noti`" + "\n" +
      "📦 Method: Binary from GitHub releases" + "\n" +
      ("✅ Status: Installation completed successfully! 🚀" + Rule()) + "\n" +
      "⏰ Schedule: Daily at 01:00 + boot backup" + "\n" +
      "🔄 Auto-update: Enabled" + "\n" +
      "📝 Config: `/opt/update-noti/config.json`" + Footer()
  {
    var h := HeaderLines("UPDATE-NOTI INSTALLED!");
    var l0, l1 := "📅 Time: `" + sys.time + "`", "🖥️ Host: `" + sys.hostname + "` (`" + sys.ip + "`)";
    var l2, l3 := "💻 OS: `" + sys.os + "`", "⏰ Uptime: `" + sys.uptime + "`";
    var l4, l5 := "📍 Location: `/opt/update-noti`", "📦 Method: Binary from GitHub releases";
    var l6 := "✅ Status: Installation completed successfully! 🚀" + Rule();
    var l7, l8 := "⏰ Schedule: Daily at 01:00 + boot backup", "🔄 Auto-update: Enabled";
    var l9 := "📝 Config: `/opt/update-noti/config.json`";
    TenLines(h, l0, l1, l2, l3, l4, l5, l6, l7, l8, l9, Rule());
    assert InstallLines(sys) == h + [l0, l1, l2, l3, l4, l5, l6, l7, l8, l9, Rule()];
  }

  /** Ten lines after a header and before a closing line. */
  lemma TenLines(h: seq<string>, l0: string, l1: string, l2: string, l3: string, l4: string,
                 l5: string, l6: string, l7: string, l8: string, l9: string, closing: string)
    ensures Join(h + [l0, l1, l2, l3, l4, l5, l6, l7, l8, l9, closing], "\n") ==
      Unlines(h) + l0 + "\n" + l1 + "\n" + l2 + "\n" + l3 + "\n" + l4 + "\n" + l5 + "\n" +
      l6 + "\n" + l7 + "\n" + l8 + "\n" + l9 + ("\n" + closing)
  {
    var a, b, c := [l0, l1, l2, l3, l4], [l5, l6, l7, l8], [l9, closing];
    FiveLines(h, l0, l1, l2, l3, l4);
    FourLines(h + a, l5, l6, l7, l8);
    JoinLast(h + a + b, l9, closing);
    SeqAssoc(h, a, b);
    SeqAssoc(h, a + b, c);
    ElevenLines(l0, l1, l2, l3, l4, l5, l6, l7, l8, l9, closing);
  }

  lemma ElevenLines<T>(l0: T, l1: T, l2: T, l3: T, l4: T, l5: T, l6: T, l7: T, l8: T, l9: T, closing: T)
    ensures [l0, l1, l2, l3, l4] + [l5, l6, l7, l8] + [l9, closing] == [l0, l1, l2, l3, l4, l5, l6, l7, l8, l9, closing]
  {
  }

  lemma FiveLines(h: seq<string>, l0: string, l1: string, l2: string, l3: string, l4: string)
    ensures Unlines(h + [l0, l1, l2, l3, l4]) ==
      Unlines(h) + l0 + "\n" + l1 + "\n" + l2 + "\n" + l3 + "\n" + l4 + "\n"
  {
    FourLines(h, l0, l1, l2, l3);
    UnlinesSnoc(h + [l0, l1, l2, l3], l4);
    assert h + [l0, l1, l2, l3] + [l4] == h + [l0, l1, l2, l3, l4];
  }

  lemma FourLines(h: seq<string>, l0: string, l1: string, l2: string, l3: string)
    ensures Unlines(h + [l0, l1, l2, l3]) == Unlines(h) + l0 + "\n" + l1 + "\n" + l2 + "\n" + l3 + "\n"
  {
    TwoLines(h, l0, l1);
    TwoLines(h + [l0, l1], l2, l3);
    assert h + [l0, l1] + [l2, l3] == h + [l0, l1, l2, l3];
  }

  lemma TwoLines(h: seq<string>, l0: string, l1: string)
    ensures Unlines(h + [l0, l1]) == Unlines(h) + l0 + "\n" + l1 + "\n"
  {
    UnlinesSnoc(h, l0);
    UnlinesSnoc(h + [l0], l1);
    assert h + [l0] + [l1] == h + [l0, l1];
  }

  /** The header, the fields and a `sep`, as lines. */
  lemma PrefixText(sys: Info, mgr: string, title: string)
    ensures Header(title) + Unlines(FieldLines(sys, mgr)) + Sep() ==
      Unlines(HeaderLines(title) + FieldLines(sys, mgr) + [Rule()])
  {
    UnlinesConcat(HeaderLines(title), FieldLines(sys, mgr));
    UnlinesConcat(HeaderLines(title) + FieldLines(sys, mgr), [Rule()]);
  }

  /** A message whose only line after the fields is its status. */
  lemma StatusText(sys: Info, mgr: string, title: string, status: string)
    ensures Header(title) + Unlines(FieldLines(sys, mgr)) + Sep() + status + Footer() ==
      Join(HeaderLines(title) + FieldLines(sys, mgr) + [Rule(), status, Rule()], "\n")
  {
    var pre := HeaderLines(title) + FieldLines(sys, mgr) + [Rule()];
    PrefixText(sys, mgr, title);
    JoinLast(pre, status, Rule());
    assert pre + [status, Rule()] == HeaderLines(title) + FieldLines(sys, mgr) + [Rule(), status, Rule()];
  }

  /** The available block as `main` formats it. */
  lemma AvailableText(up: seq<string>)
    ensures |up| <= 10 ==>
      Unlines(AvailableLines(up)) == AvailableTitle(|up|) + "\n" + Unlines(Bullets(up, "• ")) + "\n"
    ensures |up| > 10 ==>
      Unlines(AvailableLines(up)) == AvailableTitle(|up|) + "\n" + Inline(up) + "\n"
  {
    if |up| <= 10 {
      BlockText(AvailableTitle(|up|), Bullets(up, "• "), [""]);
    } else {
      BlockText(AvailableTitle(|up|), [Inline(up)], []);
      assert [AvailableTitle(|up|)] + [Inline(up)] + [] == AvailableLines(up);
    }
  }

  /** The auto-updated block with its closing `sep`, as `main` formats it. */
  lemma UpdatedText(updated: seq<string>)
    ensures 0 < |updated| <= 5 ==>
      Unlines(UpdatedLines(updated)) ==
        UpdatedTitle(|updated|) + "\n" + Unlines(Bullets(updated, "✅ ")) + "\n" + Sep()
    ensures |updated| > 5 ==>
      Unlines(UpdatedLines(updated)) == UpdatedTitle(|updated|) + "\n" + Inline(updated) + "\n" + Sep()
  {
    if 0 < |updated| <= 5 {
      BlockText(UpdatedTitle(|updated|), Bullets(updated, "✅ "), ["", Rule()]);
    } else if |updated| > 5 {
      BlockText(UpdatedTitle(|updated|), [Inline(updated)], [Rule()]);
      assert [UpdatedTitle(|updated|)] + [Inline(updated)] + [Rule()] == UpdatedLines(updated);
    }
  }

  /** Assembling the report as `main` does, by appending to `msg`. */
  method ComposeReport(sys: Info, mgr: string, up: seq<string>, updated: seq<string>)
    returns (msg: string)
    ensures msg == ReportMessage(sys, mgr, up, updated)
  {
    var fields := Fields(sys, mgr);
    msg := Header("SYSTEM UPDATE CHECK") + fields + Sep();
    ghost var lines := HeaderLines("SYSTEM UPDATE CHECK") + FieldLines(sys, mgr) + [Rule()];
    PrefixText(sys, mgr, "SYSTEM UPDATE CHECK");
    assert msg == Unlines(lines);
    var available: string;
    if |up| <= 10 {
      var list := BulletList(up, "• ");
      available := AvailableTitle(|up|) + "\n" + list + "\n";
    } else {
      available := AvailableTitle(|up|) + "\n" + Inline(up) + "\n";
    }
    AvailableText(up);
    assert available == Unlines(AvailableLines(up));
    UnlinesConcat(lines, AvailableLines(up));
    msg := msg + available;
    lines := lines + AvailableLines(up);
    UnlinesConcat(lines, [Rule()]);
    msg := msg + Sep();
    lines := lines + [Rule()];
    assert msg == Unlines(lines);
    var status: string;
    if |updated| > 0 {
      var block: string;
      if |updated| <= 5 {
        var list := BulletList(updated, "✅ ");
        block := UpdatedTitle(|updated|) + "\n" + list + "\n";
      } else {
        block := UpdatedTitle(|updated|) + "\n" + Inline(updated) + "\n";
      }
      UpdatedText(updated);
      assert block + Sep() == Unlines(UpdatedLines(updated));
      msg := msg + (block + Sep());
      status := StatusCompleted;
    } else {
      status := StatusNoneUpdated;
    }
    UnlinesConcat(lines, UpdatedLines(updated));
    lines := lines + UpdatedLines(updated);
    assert msg == Unlines(lines);
    msg := msg + status;
    msg := msg + Footer();
    JoinLast(lines, status, Rule());
    assert lines + [status, Rule()] == ReportLines(sys, mgr, up, updated);
  }

  // ---------------------------------------------------------------------
  // The allow-list intersection

  /** The packages of `upgradable` named in the allow list, in the order of
      `upgradable`: the allow list goes into a set, then `upgradable` is
      filtered by membership in it. */
  method DecideAutoUpdate(allow: seq<string>, upgradable: seq<string>) returns (toUpdate: seq<string>)
    ensures toUpdate == Filter(upgradable, MemberOf(allow))
    ensures forall x :: x in toUpdate <==> x in upgradable && x in allow
  {
    var autoSet: set<string> := {};
    for i := 0 to |allow|
      invariant forall x :: x in autoSet <==> x in allow[..i]
    {
      assert allow[..i + 1] == allow[..i] + [allow[i]];
      autoSet := autoSet + {allow[i]};
    }
    assert allow[..|allow|] == allow;
    toUpdate := [];
    for i := 0 to |upgradable|
      invariant toUpdate == Filter(upgradable[..i], MemberOf(allow))
    {
      FilterSnoc(upgradable, i, MemberOf(allow));
      if upgradable[i] in autoSet {
        toUpdate := toUpdate + [upgradable[i]];
      }
    }
    assert upgradable[..|upgradable|] == upgradable;
    forall x ensures x in toUpdate <==> x in upgradable && x in allow {
      FilterMember(upgradable, MemberOf(allow), x);
    }
  }

  /** Only the set of names in the allow list matters: repeating or
      reordering its entries selects the same packages. */
  lemma AllowListAsSet(upgradable: seq<string>, allow: seq<string>, allow': seq<string>)
    requires forall x :: x in allow <==> x in allow'
    ensures Filter(upgradable, MemberOf(allow)) == Filter(upgradable, MemberOf(allow'))
  {
    FilterCongruence(upgradable, MemberOf(allow), MemberOf(allow'));
  }

  // ---------------------------------------------------------------------
  // main

  /** The command-line flags: `-config`, `-install-complete`, `-version`. */
  datatype Flags = Flags(config: string, installComplete: bool, version: bool)

  const DefaultFlags := Flags("/opt/update-noti/config.json", false, false)

  /** What `main` writes to standard error before exiting 1. */
  const LoadFailed := "failed to load config: "
  const NoManager := "No supported package manager found."

  /** A message handed to `Slack.Send`, what the send did, and the error it
      returned (which `main` logs or ignores). */
  datatype Notice = Notice(text: string, delivery: Delivery, err: Option<SendError>)

  /** What a run did: its exit status, the lines it wrote to standard output
      and standard error, the configuration path it loaded (if it got that
      far), the upgrade commands it ran, and the notification it sent. */
  datatype Outcome = Outcome(
    exitCode: int, stdout: seq<string>, stderr: seq<string>,
    loadedFrom: Option<string>, attempted: seq<seq<string>>, notice: Option<Notice>)

  /** What `Send` does with `SimpleText(text)`. */
  function Sent(s: Slack, text: string, post: Request -> HttpResult): Notice {
    var msg := SimpleText(text);
    if s.webhook == "" then Notice(text, DryRun("[dry-run] " + text), None)
    else Notice(text, Posted(Request(s.webhook, msg)), Classify(post(Request(s.webhook, msg))))
  }

  /** `slack.Send(notify.SimpleText(text))`, with what it did recorded. */
  method Deliver(slack: Slack, text: string, post: Request -> HttpResult) returns (n: Notice)
    ensures n == Sent(slack, text, post)
  {
    var err, delivery := slack.Send(SimpleText(text), post);
    n := Notice(text, delivery, err);
  }

  /** `main`. `-version` prints the version before anything is loaded; a
      configuration file that cannot be read or decoded is reported and
      exits 1; otherwise `config.Load` fills in the defaults of the decoded
      configuration, and the run goes on with it as `RunLoaded` states:
      `-install-complete` sends the installation notice and stops; without a
      package manager it exits 1; with nothing upgradable it sends the "up to
      date" message and updates nothing; otherwise it runs the upgrade of
      every upgradable package on the allow list and sends the report.
      `decode` gives the configuration object decoded from a file. */
  method Run(flags: Flags, decode: string -> Result<Config, string>, onPath: string -> bool, sys: Info,
             listOutput: seq<string> -> string, run: seq<string> -> CmdOutcome, post: Request -> HttpResult)
    returns (o: Outcome)
    requires decode(flags.config).Ok? ==> allocated(decode(flags.config).value)
    modifies if decode(flags.config).Ok? then {decode(flags.config).value} else {}
    ensures flags.version ==>
      o == Outcome(0, [VersionString()], [], None, [], None)
    ensures !flags.version ==> o.loadedFrom == Some(flags.config)
    ensures !flags.version && decode(flags.config).Err? ==>
      o.exitCode == 1 && o.stderr == [LoadFailed + decode(flags.config).error] &&
      o.attempted == [] && o.notice == None
    ensures !flags.version && decode(flags.config).Ok? ==>
      var cfg := decode(flags.config).value;
      cfg.HasDefaults() &&
      cfg.slackWebhook == old(cfg.slackWebhook) && cfg.autoUpdate == old(cfg.autoUpdate) &&
      cfg.global == (if old(cfg.global).None? then Some(EmptyGlobal) else old(cfg.global)) &&
      NewSlack(cfg).webhook ==
        if old(cfg.slackWebhook) != "" then old(cfg.slackWebhook)
        else if old(cfg.global).Some? then old(cfg.global).value.slack.defaultWebhook
        else ""
    ensures !flags.version && decode(flags.config).Ok? && flags.installComplete ==>
      o.exitCode == 0 && o.attempted == [] &&
      o.notice == Some(Sent(NewSlack(decode(flags.config).value), InstallMessage(sys), post))
    ensures !flags.version && decode(flags.config).Ok? && !flags.installComplete && Detect(onPath) == "" ==>
      o.exitCode == 1 && o.stderr == [NoManager] &&
      o.attempted == [] && o.notice == None
    ensures !flags.version && decode(flags.config).Ok? && !flags.installComplete && Detect(onPath) != "" ==>
      o.exitCode == 0 && o.stderr == [] && o.notice.Some? &&
      CycleDone(decode(flags.config).value.autoUpdate, NewSlack(decode(flags.config).value), Detect(onPath), sys,
                listOutput, run, post, o.attempted, o.notice.value)
  {
    if flags.version {
      return Outcome(0, [VersionString()], [], None, [], None);
    }
    var decoded := decode(flags.config);
    if decoded.Err? {
      return Outcome(1, [], [LoadFailed + decoded.error], Some(flags.config), [], None);
    }
    var loaded := FinishLoad(decoded.value);
    o := RunLoaded(flags, loaded.value, onPath, sys, listOutput, run, post);
  }

  /** The part of `main` after the configuration loaded. */
  method RunLoaded(flags: Flags, cfg: Config, onPath: string -> bool, sys: Info,
                   listOutput: seq<string> -> string, run: seq<string> -> CmdOutcome, post: Request -> HttpResult)
    returns (o: Outcome)
    ensures o.loadedFrom == Some(flags.config)
    ensures flags.installComplete ==>
      o.exitCode == 0 && o.attempted == [] &&
      o.notice == Some(Sent(NewSlack(cfg), InstallMessage(sys), post))
    ensures !flags.installComplete && Detect(onPath) == "" ==>
      o.exitCode == 1 && o.stderr == [NoManager] &&
      o.attempted == [] && o.notice == None
    ensures !flags.installComplete && Detect(onPath) != "" ==>
      o.exitCode == 0 && o.stderr == [] && o.notice.Some? &&
      CycleDone(cfg.autoUpdate, NewSlack(cfg), Detect(onPath), sys, listOutput, run, post, o.attempted, o.notice.value)
  {
    var slack := NewSlack(cfg);
    if flags.installComplete {
      var notice := Deliver(slack, InstallMessage(sys), post);
      return Outcome(0, [], [], Some(flags.config), [], Some(notice));
    }
    var mgr := Detect(onPath);
    if mgr == "" {
      return Outcome(1, [], [NoManager], Some(flags.config), [], None);
    }
    var attempted, notice := UpdateCycle(cfg.autoUpdate, slack, mgr, sys, listOutput, run, post);
    return Outcome(0, [], [], Some(flags.config), attempted, Some(notice));
  }

  /** What one cycle after a package manager was found does: with
      nothing upgradable, no command and the "up to date" message; otherwise
      the upgrade command of every upgradable package on the allow list, in
      order, and the report of what was available and what of it the
      upgrade commands updated. */
  ghost predicate CycleDone(autoUpdate: seq<string>, slack: Slack, mgr: string, sys: Info,
                            listOutput: seq<string> -> string, run: seq<string> -> CmdOutcome,
                            post: Request -> HttpResult, attempted: seq<seq<string>>, notice: Notice)
  {
    var up := SortedUnique(RawNames(mgr, Listing(mgr, listOutput)));
    var toUpdate := Filter(up, MemberOf(autoUpdate));
    var updated := Filter(toUpdate, Succeeded(mgr, run));
    (up == [] ==> attempted == [] && notice == Sent(slack, UpToDateMessage(sys, mgr), post)) &&
    (up != [] ==>
      |attempted| == |toUpdate| &&
      (forall i :: 0 <= i < |toUpdate| ==> UpgradeCommand(mgr, toUpdate[i]) == Some(attempted[i])) &&
      notice == Sent(slack, ReportMessage(sys, mgr, up, updated), post))
  }

  /** The part of `main` after a package manager was found: list what is
      upgradable, send "up to date" when that is nothing, and otherwise
      upgrade what the allow list names and send the report. */
  method UpdateCycle(autoUpdate: seq<string>, slack: Slack, mgr: string, sys: Info,
                     listOutput: seq<string> -> string, run: seq<string> -> CmdOutcome, post: Request -> HttpResult)
    returns (attempted: seq<seq<string>>, notice: Notice)
    requires Known(mgr)
    ensures CycleDone(autoUpdate, slack, mgr, sys, listOutput, run, post, attempted, notice)
  {
    var argv := ListCommand(mgr).value;
    var upgradable, _ := Upgradable(mgr, listOutput(argv));
    if |upgradable| == 0 {
      notice := Deliver(slack, UpToDateMessage(sys, mgr), post);
      return [], notice;
    }
    var toUpdate := DecideAutoUpdate(autoUpdate, upgradable);
    var updated;
    updated, attempted := AutoUpdate(mgr, toUpdate, run);
    var msg := ComposeReport(sys, mgr, upgradable, updated);
    notice := Deliver(slack, msg, post);
  }

  // ---------------------------------------------------------------------
  // The shape of the report

  lemma FieldLinesOneLine(sys: Info, mgr: string)
    requires InfoOneLine(sys) && NoNewline(mgr)
    ensures NoNewlines(FieldLines(sys, mgr))
  {
  }

  lemma HeaderOneLine(title: string)
    requires NoNewline(title)
    ensures NoNewlines(HeaderLines(title))
  {
    RuleNoNewline();
  }

  lemma AvailableOneLine(up: seq<string>)
    requires NoNewlines(up)
    ensures NoNewlines(AvailableLines(up))
  {
    DecimalNoNewline(|up|);
    if |up| <= 10 {
      BulletsNoNewlines(up, "• ");
      NoNewlinesConcat([AvailableTitle(|up|)], Bullets(up, "• "));
      NoNewlinesConcat([AvailableTitle(|up|)] + Bullets(up, "• "), [""]);
    } else {
      InlineNoNewline(up);
    }
  }

  lemma UpdatedOneLine(updated: seq<string>)
    requires NoNewlines(updated)
    ensures NoNewlines(UpdatedLines(updated))
  {
    DecimalNoNewline(|updated|);
    RuleNoNewline();
    if 0 < |updated| <= 5 {
      BulletsNoNewlines(updated, "✅ ");
      NoNewlinesConcat([UpdatedTitle(|updated|)], Bullets(updated, "✅ "));
      NoNewlinesConcat([UpdatedTitle(|updated|)] + Bullets(updated, "✅ "), ["", Rule()]);
    } else if |updated| > 5 {
      InlineNoNewline(updated);
    }
  }

  lemma StatusOneLine(status: string)
    requires status == StatusCompleted || status == StatusNoneUpdated
    ensures NoNewlines([status, Rule()])
  {
    RuleNoNewline();
    assert NoNewline(StatusCompleted) && NoNewline(StatusNoneUpdated);
  }

  lemma ReportLinesOneLine(sys: Info, mgr: string, up: seq<string>, updated: seq<string>)
    requires InfoOneLine(sys) && NoNewline(mgr) && NoNewlines(up) && NoNewlines(updated)
    ensures NoNewlines(ReportLines(sys, mgr, up, updated))
  {
    RuleNoNewline();
    HeaderOneLine("SYSTEM UPDATE CHECK");
    FieldLinesOneLine(sys, mgr);
    AvailableOneLine(up);
    UpdatedOneLine(updated);
    var status := if updated != [] then StatusCompleted else StatusNoneUpdated;
    var p1 := HeaderLines("SYSTEM UPDATE CHECK") + FieldLines(sys, mgr);
    NoNewlinesConcat(HeaderLines("SYSTEM UPDATE CHECK"), FieldLines(sys, mgr));
    NoNewlinesConcat(p1, [Rule()]);
    NoNewlinesConcat(p1 + [Rule()], AvailableLines(up));
    NoNewlinesConcat(p1 + [Rule()] + AvailableLines(up), [Rule()]);
    NoNewlinesConcat(p1 + [Rule()] + AvailableLines(up) + [Rule()], UpdatedLines(updated));
    StatusOneLine(status);
    NoNewlinesConcat(p1 + [Rule()] + AvailableLines(up) + [Rule()] + UpdatedLines(updated), [status, Rule()]);
  }

  /** A report built from one-line host facts and package names splits at
      its newlines into exactly its lines. */
  lemma ReportSplitsIntoLines(sys: Info, mgr: string, up: seq<string>, updated: seq<string>)
    requires InfoOneLine(sys) && NoNewline(mgr) && NoNewlines(up) && NoNewlines(updated)
    ensures Split(ReportMessage(sys, mgr, up, updated), '\n') == ReportLines(sys, mgr, up, updated)
  {
    ReportLinesOneLine(sys, mgr, up, updated);
    SplitJoinedLines(ReportLines(sys, mgr, up, updated));
  }

  /** The available block alone: its count, then one bullet per package
      and a blank line when there are at most ten, else the list. */
  lemma AvailableShape(up: seq<string>)
    ensures var avail := AvailableLines(up);
      avail[0] == AvailableTitle(|up|) &&
      (|up| <= 10 ==> |avail| == |up| + 2 && forall i :: 0 <= i < |up| ==> avail[1 + i] == Bullet("• ", up[i])) &&
      (|up| > 10 ==> |avail| == 2 && avail[1] == Inline(up))
  {
  }

  /** The auto-updated block alone: nothing when nothing was updated; else
      its count, then one bullet per package, a blank line and the rule when
      there are at most five, else the list and the rule. */
  lemma UpdatedShape(updated: seq<string>)
    ensures var upd := UpdatedLines(updated);
      (updated == [] <==> upd == []) &&
      (updated != [] ==> upd[0] == UpdatedTitle(|updated|)) &&
      (0 < |updated| <= 5 ==>
        |upd| == |updated| + 3 && forall i :: 0 <= i < |updated| ==> upd[1 + i] == Bullet("✅ ", updated[i])) &&
      (|updated| > 5 ==> |upd| == 3 && upd[1] == Inline(updated))
  {
  }

  /** The lines of a report are the header, the five facts and a rule, then
      the available block, a rule, the auto-updated block, the status and a
      closing rule; the status says "completed" exactly when something was
      updated. */
  lemma ReportLinesParts(sys: Info, mgr: string, up: seq<string>, updated: seq<string>)
    ensures Framed(ReportLines(sys, mgr, up, updated), AvailableLines(up), UpdatedLines(updated),
                   if updated != [] then StatusCompleted else StatusNoneUpdated, Rule())
  {
    var pre := HeaderLines("SYSTEM UPDATE CHECK") + FieldLines(sys, mgr) + [Rule()];
    var status := if updated != [] then StatusCompleted else StatusNoneUpdated;
    Positions(pre, AvailableLines(up), Rule(), UpdatedLines(updated), status);
  }

  /** Line by line, the report starts its available block, after the nine
      prefix lines, with the count; then comes one bullet per package and a
      blank line when there are at most ten, else the comma-separated list;
      then a rule. */
  lemma ReportAvailableShape(sys: Info, mgr: string, up: seq<string>, updated: seq<string>)
    ensures var ls := ReportLines(sys, mgr, up, updated);
      var a := |AvailableLines(up)|;
      |ls| >= 12 + a &&
      ls[9] == AvailableTitle(|up|) &&
      (|up| <= 10 ==> a == |up| + 2 && forall i :: 0 <= i < |up| ==> ls[10 + i] == Bullet("• ", up[i])) &&
      (|up| > 10 ==> a == 2 && ls[10] == Inline(up)) &&
      ls[9 + a] == Rule()
  {
    var status := if updated != [] then StatusCompleted else StatusNoneUpdated;
    ReportLinesParts(sys, mgr, up, updated);
    AvailableInReport(ReportLines(sys, mgr, up, updated), up, UpdatedLines(updated), status);
  }

  /** Line by line, the report has an auto-updated block only when
      something was updated: its count, then one bullet per package when at
      most five, else the list. */
  lemma ReportUpdatedShape(sys: Info, mgr: string, up: seq<string>, updated: seq<string>)
    ensures UpdatedBlockAt(ReportLines(sys, mgr, up, updated), |AvailableLines(up)|, updated)
  {
    var status := if updated != [] then StatusCompleted else StatusNoneUpdated;
    ReportLinesParts(sys, mgr, up, updated);
    UpdatedInReport(ReportLines(sys, mgr, up, updated), AvailableLines(up), updated, status);
  }

  /** The report ends with its status, which says "completed" exactly when
      something was updated, and a rule. */
  lemma ReportStatusShape(sys: Info, mgr: string, up: seq<string>, updated: seq<string>)
    ensures var ls := ReportLines(sys, mgr, up, updated);
      |ls| >= 2 &&
      ls[|ls| - 2] == (if updated != [] then StatusCompleted else StatusNoneUpdated) &&
      ls[|ls| - 1] == Rule()
  {
    ReportLinesParts(sys, mgr, up, updated);
  }

  /** The available block read off lines framed like a report. */
  lemma AvailableInReport(ls: seq<string>, up: seq<string>, upd: seq<string>, status: string)
    requires Framed(ls, AvailableLines(up), upd, status, Rule())
    ensures var a := |AvailableLines(up)|;
      |ls| >= 12 + a &&
      ls[9] == AvailableTitle(|up|) &&
      (|up| <= 10 ==> a == |up| + 2 && forall i :: 0 <= i < |up| ==> ls[10 + i] == Bullet("• ", up[i])) &&
      (|up| > 10 ==> a == 2 && ls[10] == Inline(up)) &&
      ls[9 + a] == Rule()
  {
    var avail := AvailableLines(up);
    AvailableShape(up);
    assert ls[9 + 0] == avail[0];
    if |up| <= 10 {
      forall i | 0 <= i < |up| ensures ls[10 + i] == Bullet("• ", up[i]) {
        assert ls[9 + (1 + i)] == avail[1 + i];
      }
    } else {
      assert ls[9 + 1] == avail[1];
    }
  }

  /** Report lines `ls` whose available block has `a` lines: they hold an
      auto-updated block exactly when something was updated, made of its
      count, then one bullet per package when at most five, else the list. */
  ghost predicate UpdatedBlockAt(ls: seq<string>, a: nat, updated: seq<string>) {
    |ls| >= 12 + a &&
    (updated == [] <==> |ls| == 12 + a) &&
    (updated != [] ==> ls[10 + a] == UpdatedTitle(|updated|)) &&
    (0 < |updated| <= 5 ==> forall i :: 0 <= i < |updated| ==> 11 + a + i < |ls| && ls[11 + a + i] == Bullet("✅ ", updated[i])) &&
    (|updated| > 5 ==> ls[11 + a] == Inline(updated))
  }

  /** The auto-updated block read off lines framed like a report. */
  lemma UpdatedInReport(ls: seq<string>, avail: seq<string>, updated: seq<string>, status: string)
    requires Framed(ls, avail, UpdatedLines(updated), status, Rule())
    ensures UpdatedBlockAt(ls, |avail|, updated)
  {
    var upd := UpdatedLines(updated);
    UpdatedShape(updated);
    if updated != [] {
      assert ls[10 + |avail| + 0] == upd[0];
    }
    if 0 < |updated| <= 5 {
      forall i | 0 <= i < |updated| ensures 11 + |avail| + i < |ls| && ls[11 + |avail| + i] == Bullet("✅ ", updated[i]) {
        assert ls[10 + |avail| + (1 + i)] == upd[1 + i];
      }
    } else if |updated| > 5 {
      assert ls[10 + |avail| + 1] == upd[1];
    }
  }
}
