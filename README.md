# Package-Updates-Noty, modelled in Dafny

Package-Updates-Noty is a daily job for a Linux host:

1. It finds the host's package manager (apt, dnf, yum, pacman or zypper).
2. It lists the packages that have an upgrade waiting.
3. It runs the upgrade for the packages on a configured allow list ("auto_update").
4. It posts a formatted report to a Slack webhook.

The repository has two implementations, and both are modelled:

- the original Python script `update_noti.py`;
- the Go port: `cmd/update-noti` (the `main` flow and the message layout), `internal/pm` (detection, listing parsers, upgrades), `internal/system` (host facts, uptime, integer formatting), `internal/config` (configuration defaults) and `internal/notify` (webhook choice and sending).

Modules:

| module | models |
|---|---|
| `Pm` | `internal/pm/pm.go` |
| `UpdateNotiCmd` | `cmd/update-noti/main.go` |
| `SystemInfo` | `internal/system/info.go` |
| `Configuration` | `internal/config/config.go` |
| `Notify` | `internal/notify/slack.go` |
| `UpdateNotiPy` | `update_noti.py` |
| `Managers` | the manager names and the list and upgrade commands, the same in both implementations |
| `Text` | the string primitives each language supplies, each with its own rules |
| `StringOrder` | Go's `sort.Strings` |
| `Lists` | filtering, and Python's list comprehensions with exceptions |
| `Layout` | the report's shared layout |
| `CrossCheck` | where the two implementations agree and where they differ |

The outside world is passed in as parameters:

- which binaries exist (`onPath`, `pathExists`);
- what a listing command prints (`listOutput`);
- how an upgrade command ends (`run`: exit 0, non-zero exit, or the binary cannot be started). It is a function of the command line alone, so a package the Python script lists twice gets the same outcome from both of its upgrade attempts;
- what an HTTP POST returns (`post`);
- what reading and decoding the configuration file gives (`decode` for Go, whose `Run` then applies `config.Load`'s defaults and validation; a `Result` for Python).

The loops of the source are methods with loop invariants, each proved against a specification function:

- the listing parsers;
- `uniqueSorted`;
- `AutoUpdate` and `auto_update_packages`;
- `bulletList`;
- `strconvItoa` and `readUptime`;
- message composition;
- the auto-update selection.

The Go configuration is a class whose `setDefaults` updates its fields in place. `fields` and the first nine lines of the Python message are straight-line appends, one line at a time.

Behaviour of the code worth knowing before reading the model:

- The Go port sorts and deduplicates the upgradable list. The Python script keeps the listing's order and its repeats.
- A send counts as successful on any 2xx status, not on a particular response body.
- The Python script posts to a webhook constant compiled into it. The Go port treats an empty webhook as a dry run that prints the message.
- The Go report has a blank line after a bulleted list, because `bulletList` already ends in a newline and the format adds another. The Python report has none.

## Model

| member | source | states |
|---|---|---|
| Managers.ListCommand | internal/pm/pm.go:49-108 | There is a listing command exactly for the five known managers, and it starts with the manager's own binary. |
| Managers.UpgradeCommand | internal/pm/pm.go:113-131 | There is an upgrade command exactly for the five known managers. It has four words and ends with the package name. |
| Managers.CommandsForDetermine | internal/pm/pm.go:117-131 | The upgrade commands attempted determine the packages they were run for: two package lists with the same attempted commands agree on those packages. |
| Pm.Detect | internal/pm/pm.go:22-39 | The result is "" exactly when none of apt, dnf, yum, pacman, zypper is on the PATH. Otherwise it is the first of them, in that order, that is on the PATH. |
| Pm.AptName | internal/pm/pm.go:55-62 | A line gives a name exactly when it is non-empty and does not start with "/". The name is the non-empty part of the line before the first "/". |
| Pm.CheckUpdateName | internal/pm/pm.go:72-78 | A trimmed line gives a name exactly when it is non-empty, starts with none of the three banners and does not start with "=". The name is its first whitespace-delimited word. |
| Pm.PacmanName | internal/pm/pm.go:85-91 | A line gives a name exactly when it is not all white space. The name is the first word of the trimmed line. |
| Pm.ZypperName | internal/pm/pm.go:99-105 | A line gives a name exactly when it has at least two "\|" and no "Package". |
| Pm.ZypperRow | internal/pm/pm.go:100-104 | On a table row, the name is the trimmed third column. |
| Pm.ParseApt | internal/pm/pm.go:52-63 | The loop collects the names of all lines after the first, in order, with empty lines and lines without a name left out. |
| Pm.ParseCheckUpdate | internal/pm/pm.go:68-79 | The loop collects, in order, the name of every scanned line that gives one. |
| Pm.ParsePacman | internal/pm/pm.go:82-92 | The loop collects, in order, the name of every scanned line that gives one. |
| Pm.ParseZypper | internal/pm/pm.go:95-106 | The loop collects, in order, the third column of every scanned table row. |
| Pm.UniqueSorted | internal/pm/pm.go:139-146 | The output is strictly ascending and has exactly the input's names, each once. It is the only such list. |
| Pm.Upgradable | internal/pm/pm.go:49-110 | Never an error. The result is the parsed names of the manager's listing, sorted strictly ascending with each name once. An unknown manager gives nothing. |
| Pm.AutoUpdate | internal/pm/pm.go:113-137 | For a known manager, one upgrade command per package is run, in order. The updated list is exactly the packages whose command exited 0. For an unknown manager, nothing is run or updated. |
| StringOrder.LessIrreflexive | internal/pm/pm.go:144 | No string sorts before itself. |
| StringOrder.LessTransitive | internal/pm/pm.go:144 | The sort order is transitive. |
| StringOrder.LessTotal | internal/pm/pm.go:144 | Any two distinct strings are ordered one way or the other. |
| StringOrder.LessAsymmetric | internal/pm/pm.go:144 | Two strings are never each before the other. |
| StringOrder.Sort | internal/pm/pm.go:144 | Sorting permutes its input: same multiset. |
| StringOrder.SortAscending | internal/pm/pm.go:144 | Sorting distinct strings gives a strictly ascending list. |
| StringOrder.AscendingUnique | internal/pm/pm.go:139-146 | Two strictly ascending lists with the same elements are equal, so the arbitrary map iteration order cannot change the result. |
| StringOrder.SortedUniqueShape | internal/pm/pm.go:139-146 | Deduplicating then sorting gives a strictly ascending list with exactly the input's elements. |
| Lists.Dedup | internal/pm/pm.go:140-143 | The set of map keys has each input element exactly once. |
| Lists.FilterMember | cmd/update-noti/main.go:66-69 | An element survives a filter exactly when it is in the input and the test holds. |
| Lists.FilterCount | update_noti.py:175 | A filter keeps every copy of an accepted element and none of a rejected one. |
| Lists.CollectRaises | update_noti.py:72 | A list comprehension raises exactly when some element raises. It raises the error of the first one that does. |
| Lists.CollectMember | update_noti.py:112-127 | A comprehension that completes holds exactly the items its elements keep. |
| Text.TrimSpace | internal/pm/pm.go:73 | The trimmed text is empty exactly when the line is all white space. Otherwise it neither starts nor ends with white space. |
| Text.Token | internal/pm/pm.go:75 | The first word is a prefix without white space, ended by white space or by the end of the text. |
| Text.TokenUnique | internal/pm/pm.go:75 | Any such prefix is the first word. |
| Text.Fields | internal/pm/pm.go:75 | The words are non-empty and have no white space. There are none exactly when the text is all white space. |
| Text.FirstField | update_noti.py:80-82 | The first word of a split is the first word after the leading white space. |
| Text.Split | internal/pm/pm.go:101 | Splitting on a separator gives one more part than there are separators, and no part contains it. |
| Text.JoinSplit | internal/pm/pm.go:53 | Joining the parts of a split with the separator gives back the text. |
| Text.SplitJoin | update_noti.py:192 | Splitting lines joined with a separator they do not contain gives back the lines. |
| Text.BeforeFirst | internal/pm/pm.go:59 | The part before the first separator is a prefix without the separator, followed by it or by the end. |
| Text.SplitHead | internal/pm/pm.go:59 | The first part of a split is the text before the first separator. |
| Text.ScanLines | internal/pm/pm.go:69-72 | Go's line scanner yields lines without newlines. |
| Text.PySplitLines | update_noti.py:71 | Python's `splitlines` yields lines with no line-boundary character. |
| Text.PySplitLinesCons | update_noti.py:78 | A line ended by "\n" is the first line `splitlines` yields. |
| Text.ScanLinesCons | internal/pm/pm.go:69-72 | A newline-free line ended by "\n" is the first token the scanner yields, with one trailing "\r" dropped. |
| Text.ScanLinesUnlines | internal/pm/pm.go:69-72 | Output written one line per "\n" scans back into exactly those lines, when no line holds a newline or ends in "\r". |
| Text.PySplitLinesUnlines | update_noti.py:71 | Output written one line per "\n" splits back into exactly those lines, when no line holds a Python line boundary. |
| Text.RepeatChar | cmd/update-noti/main.go:117 | Repeating one character n times gives n copies of it. |
| Text.DecimalStringValue | cmd/update-noti/main.go:74 | The decimal form of a natural number is canonical and reads back as that number. |
| Text.CanonicalDecimalRoundTrip | cmd/update-noti/main.go:74 | A canonical numeral is the decimal form of the number it reads as. |
| SystemInfo.ItoaRoundTrip | internal/system/info.go:79-96 | The intended decimal form of any integer reads back as that integer. |
| SystemInfo.ItoaShape | internal/system/info.go:79-96 | The decimal form is "0" for zero. Otherwise it is canonical digits without a leading zero, after a "-" exactly when the number is negative. |
| SystemInfo.StrconvItoa | internal/system/info.go:79-96 | The 20-byte buffer loop gives the decimal form for every 64-bit value except the minimum, and a lone "-" for the minimum. |
| SystemInfo.MinInt64Misprinted | internal/system/info.go:84-87 | For the minimum 64-bit value, the decimal form reads back as itself, while the "-" written for it reads back as 0. |
| SystemInfo.WriteDigit | internal/system/info.go:90-94 | Each loop step keeps the buffer index inside the 20 bytes, and the pending digits still make up the magnitude. |
| SystemInfo.ToInt64 | internal/system/info.go:72 | The float-to-int conversion is exact within 64 bits and always gives a 64-bit value. |
| SystemInfo.GoDiv | internal/system/info.go:72 | Go's division by 3600 truncates toward zero, also for negative values. |
| SystemInfo.ReadUptime | internal/system/info.go:53-77 | "Unknown" when there is no first line. Otherwise the whole hours of the accumulated seconds, then "h". |
| SystemInfo.UptimeOfProcLine | internal/system/info.go:60-73 | On a `/proc/uptime` line of whole seconds then "." or " ", the result is those seconds divided by 3600, written in decimal, then "h". |
| SystemInfo.SecondsField | internal/system/info.go:61-71 | The characters accumulated are the digits before the first "." of the first space-separated field. |
| Configuration.Config.constructor | internal/config/config.go:8-13 | A configuration holds exactly the decoded webhook, allow list, telemetry and global settings. |
| Configuration.Config.SetDefaults | internal/config/config.go:36-44 | The log level becomes "INFO" when empty, and a missing global block becomes an empty one. Nothing else changes. A configuration that already has defaults is left unchanged. |
| Configuration.Config.Validate | internal/config/config.go:46-51 | Validation accepts every configuration, including an empty webhook. |
| Configuration.FinishLoad | internal/config/config.go:29-51 | After decoding, loading always succeeds with the defaulted configuration: the webhook, the allow list and the log file are kept, an empty log level becomes "INFO", a decoded `Global` is kept and a nil one becomes empty. |
| Notify.NewSlack | internal/notify/slack.go:24-36 | The webhook is the configuration's own when set, else the global default. It is empty exactly when both are empty or there is no global block. |
| Notify.Classify | internal/notify/slack.go:46-54 | A send succeeds exactly on a 2xx response. A transport failure and any other status are reported as such. |
| Notify.SimpleText | internal/notify/slack.go:57 | The message carries exactly the text and no blocks. |
| Notify.Slack.Send | internal/notify/slack.go:38-55 | With no webhook, a "[dry-run]" line is printed and there is no error. Otherwise the message is posted to the webhook and the response is classified. |
| Notify.Slack.SendTo | internal/notify/slack.go:60-76 | A non-empty override is posted to and classified in the same way. An empty one falls back to `Send`. |
| UpdateNotiCmd.Sep | cmd/update-noti/main.go:121 | A rule of 40 heavy horizontal lines, then a newline. |
| UpdateNotiCmd.Footer | cmd/update-noti/main.go:123 | A newline, then a rule of 40 heavy horizontal lines. |
| UpdateNotiCmd.Header | cmd/update-noti/main.go:116-119 | The title between "🔍 *" and "* 🔍", on its own line between two rules. |
| UpdateNotiCmd.Fields | cmd/update-noti/main.go:137-145 | Five appends give five newline-ended lines in order: time; host and IP; OS; uptime; package manager. |
| UpdateNotiCmd.BulletList | cmd/update-noti/main.go:125-135 | One line per item, in order, each the indented prefix and the quoted item. Empty input gives "". |
| UpdateNotiCmd.VersionString | cmd/update-noti/main.go:147-149 | The version line is "update-noti dev". |
| UpdateNotiCmd.UpToDateMessage | cmd/update-noti/main.go:60 | The "up to date" message is the header, the facts, a rule, the status and a closing rule, one per line. |
| UpdateNotiCmd.StatusText | cmd/update-noti/main.go:60 | Header, facts, rule, status and footer, joined, are exactly those lines joined by newlines. |
| UpdateNotiCmd.InstallMessage | cmd/update-noti/main.go:96-108 | The installation notice, line by line. |
| UpdateNotiCmd.InstallText | cmd/update-noti/main.go:97-108 | The installation notice as the source concatenates it equals its lines joined by newlines. |
| UpdateNotiCmd.AvailableText | cmd/update-noti/main.go:73-77 | Up to ten packages are bulleted, followed by a blank line. More than ten are listed inline, comma-separated. |
| UpdateNotiCmd.UpdatedText | cmd/update-noti/main.go:79-85 | Up to five updated packages are bulleted. More than five are listed inline. Either way a rule follows. |
| UpdateNotiCmd.ComposeReport | cmd/update-noti/main.go:72-89 | The report built piece by piece is exactly the report's lines joined by newlines. |
| UpdateNotiCmd.ReportSplitsIntoLines | cmd/update-noti/main.go:72-89 | When no fact or name holds a newline, splitting the report at newlines gives back its lines. |
| UpdateNotiCmd.ReportLinesParts | cmd/update-noti/main.go:72-89 | A report is: header, facts and rule; the available block; a rule; the updated block; the status; a closing rule. The status says "completed" exactly when something was updated. |
| UpdateNotiCmd.ReportAvailableShape | cmd/update-noti/main.go:73-78 | Line by line: the count of available packages, one bullet per package (when at most ten) or the inline list, then a rule. |
| UpdateNotiCmd.ReportUpdatedShape | cmd/update-noti/main.go:79-84 | There is an updated block exactly when something was updated. It has its count, then bullets (at most five) or the inline list. |
| UpdateNotiCmd.ReportStatusShape | cmd/update-noti/main.go:85-89 | The report ends with its status and a rule. The status says "completed" exactly when something was updated. |
| UpdateNotiCmd.DecideAutoUpdate | cmd/update-noti/main.go:66-69 | The selection keeps the upgradable packages that are on the allow list, in upgradable order, and nothing else. |
| UpdateNotiCmd.AllowListAsSet | cmd/update-noti/main.go:66-67 | The selection depends only on which names are on the allow list, not on their order or repeats. |
| UpdateNotiCmd.Deliver | cmd/update-noti/main.go:61 | A message is handed to `Send` as simple text, and what the send did is recorded. |
| UpdateNotiCmd.UpdateCycle | cmd/update-noti/main.go:52-93 | With nothing upgradable: no command, and the "up to date" message. Otherwise: the upgrade command of every allow-listed upgradable package, in order, and the report of what was available and what was updated. |
| UpdateNotiCmd.RunLoaded | cmd/update-noti/main.go:41-93 | `-install-complete` sends the installation notice and exits 0. No package manager writes the error and exits 1. Otherwise one update cycle runs and it exits 0. |
| UpdateNotiCmd.Run | cmd/update-noti/main.go:24-94 | `-version` prints the version and loads nothing. A configuration that cannot be read or decoded writes the error and exits 1 with nothing run or sent. Otherwise the decoded configuration gets its defaults (webhook and allow list kept, a decoded `Global` kept, a nil one made empty), so the notices go to the decoded webhook when it is set, else to the decoded global default webhook, else nowhere (a dry run); the run then does what `RunLoaded` states for it. |
| UpdateNotiPy.DetectPackageManager | update_noti.py:52-64 | None exactly when none of the five binaries exists in /usr/bin. Otherwise the first that does. |
| UpdateNotiPy.PyAptName | update_noti.py:72 | Every non-empty line gives a name: its text before the first "/", or the whole line when it has none. |
| UpdateNotiPy.PyCheckUpdateName | update_noti.py:78-93 | A line gives a name exactly when it is non-empty, starts with neither banner of its branch, has a word, and that word does not start with "=". The name is that first word. |
| UpdateNotiPy.PyPacmanStep | update_noti.py:97 | Empty lines are skipped. A line of white space raises IndexError. Any other line gives its first word. |
| UpdateNotiPy.PyZypperStep | update_noti.py:102 | Lines without "\|" or with "Package" are skipped. A row with a single "\|" raises IndexError. Otherwise the row gives its stripped third column. |
| UpdateNotiPy.PyUpgradable | update_noti.py:67-105 | An unknown manager gives the empty list. apt, dnf and yum never raise. |
| UpdateNotiPy.ParseCheckUpdate | update_noti.py:76-83 | The loop appends, in order, the name of every line that gives one. |
| UpdateNotiPy.GetUpgradablePackages | update_noti.py:67-105 | The parsing loops compute exactly the comprehension-level result, including the exception raised. |
| UpdateNotiPy.PyUpgradableRaises | update_noti.py:97-102 | Listing raises exactly when, for pacman, a line is all white space or, for zypper, a row has a single "\|". |
| UpdateNotiPy.PacmanKeepsRepeats | update_noti.py:97 | A package listed twice by pacman is reported twice. |
| UpdateNotiPy.DnfKeepsRepeats | update_noti.py:78-83 | A package listed twice by dnf is reported twice. |
| UpdateNotiPy.ToUpdateSpec | update_noti.py:175 | A package is selected exactly when it is upgradable and on the allow list. Each copy of it is kept. |
| UpdateNotiPy.AutoUpdatePackages | update_noti.py:108-127 | One upgrade command per package runs, in order. A non-zero exit leaves the package out. A binary that cannot be started raises and stops the loop there. An unknown manager runs nothing and reports every package as updated. |
| UpdateNotiPy.UpdateStepAt | update_noti.py:112-126 | One loop step: the package is kept on exit 0, skipped on a non-zero exit, and raises FileNotFoundError when the binary cannot start. |
| UpdateNotiPy.PrefixLines | update_noti.py:155-163 | The prefix shared by both messages is nine lines: three of header, five facts, one rule. |
| UpdateNotiPy.ComposePrefix | update_noti.py:179-187 | The first nine `msg +=` steps give exactly the nine prefix lines, each ended by a newline. |
| UpdateNotiPy.ComposeUpToDate | update_noti.py:155-165 | The "up to date" message built step by step equals its lines joined by newlines. |
| UpdateNotiPy.AvailableText | update_noti.py:190-197 | Up to ten packages are bulleted, with no blank line after. More than ten are listed inline. |
| UpdateNotiPy.UpdatedText | update_noti.py:201-208 | Up to five updated packages are bulleted. More are listed inline. Either way a rule follows. |
| UpdateNotiPy.ComposeReport | update_noti.py:179-213 | The report built step by step equals its lines joined by newlines. |
| UpdateNotiPy.ReportSplitsIntoLines | update_noti.py:179-213 | When no fact or name holds a newline, splitting the report at newlines gives back its lines. |
| UpdateNotiPy.ReportAvailableShape | update_noti.py:190-199 | Line by line: the count of available packages, one bullet per package (when at most ten) or the inline list, then a rule. |
| UpdateNotiPy.ReportUpdatedShape | update_noti.py:201-208 | There is an updated block exactly when something was updated. It has its count, then bullets (at most five) or the inline list. |
| UpdateNotiPy.ReportStatusShape | update_noti.py:201-213 | The report ends with its status and a rule. The status says "completed" exactly when something was updated. |
| UpdateNotiPy.SendSlackMessage | update_noti.py:130-142 | The text is posted to the fixed webhook as `{"text": ...}`. The send fails (and prints its failure) exactly when the response is not a 2xx status. |
| UpdateNotiPy.Run | update_noti.py:144-215 | No manager: print and exit 1. A listing exception ends the run. Nothing upgradable: send "up to date" without reading the configuration. Otherwise: read the configuration (a missing key means an empty list), upgrade the allow-listed upgradable packages in order, and send the report, unless the configuration or an upgrade raised. |
| CrossCheck.DetectAgree | internal/pm/pm.go:22-39 | With the same binaries present, both implementations pick the same manager, and both find none together. |
| CrossCheck.YumBannerDivergence | update_noti.py:89 | Python's yum branch reports "Last" for dnf's metadata banner, which Go drops. |
| CrossCheck.DnfBannerDivergence | update_noti.py:79 | Python's dnf branch reports "Loaded" for yum's plugins banner, which Go drops. |
| CrossCheck.IndentedBannerDivergence | internal/pm/pm.go:73-74 | Go trims before testing the banners, so it drops an indented "Obsoleting Packages" line. Python reports "Obsoleting". |
| CrossCheck.ZypperDivergence | update_noti.py:102 | A row with a single "\|" is skipped by Go and makes Python raise IndexError. |
| CrossCheck.GoNeverRepeats | internal/pm/pm.go:139-146 | Go's upgradable list never repeats a name, whatever the listing. |
| CrossCheck.AutoUpdateAgree | update_noti.py:108-127 | For a known manager whose upgrade binaries all start, Python updates exactly the packages Go does. |
| CrossCheck.StartFailedDivergence | update_noti.py:125 | A missing upgrade binary: Go counts the package as not updated, while Python raises FileNotFoundError. |
| CrossCheck.UnknownManagerDivergence | internal/pm/pm.go:129-131 | For an unknown manager, Go updates nothing, while Python reports every package as updated without running anything. |

## Left out

- Running processes, looking binaries up on the PATH and testing files in /usr/bin are parameters.
- A listing command whose output cannot be read is taken to print what `listOutput` says. Go ignores the error anyway. In Python, a listing binary missing from the PATH would raise.
- Probing the host is not modelled: hostname, outbound IP, OS and kernel release, and the current time. These are strings handed in as `Info`.
- Python's uptime (update_noti.py:35-41) is not modelled, because it parses a float.
- SystemInfo.ReadUptime: accumulates the seconds as an exact integer. Go's float64 rounds past 2^53 seconds. That is far beyond any real uptime.
- Text.ScanLines: does not model the scanner's 64 KiB limit on one line.
- Notify.Slack.Send, Notify.Slack.SendTo: the source ignores the error of building the request. A webhook that is not a valid URL, such as one holding a control character or `http://%zz`, leaves the request nil, the next line dereferences it, and the program panics (exit status 2). The model posts to every non-empty webhook. The source reaches the exit 0 that `UpdateNotiCmd.RunLoaded` and `UpdateNotiCmd.Run` promise only when the webhook parses as a URL.
- The HTTP client, its timeouts, request contexts and JSON encoding are not modelled. A post is the `post` parameter applied to the URL and the message.
- Slack message blocks are opaque. The source only ever sends text.
- The Python webhook URL, a constant in the script, is a parameter of its `Run`.
- The text of the Python exception in the failure line is not modelled. Only the fact that the send failed is.
- Reading and JSON-decoding the Go configuration file is the `decode` parameter. `FinishLoad` models what follows the decode, and `Run` applies it before using the configuration.
- Reading the Python configuration file is a `Result` parameter. A configuration that is not an object, or whose `auto_update` is not a list of strings, is not modelled.
- Logging setup and `log.Warn` are not modelled. The send error is recorded instead.
- Printing and `os.Exit` / `sys.exit` are recorded in the run's outcome.
- Go's strings are taken as their UTF-8 decoding. On valid UTF-8, `sort.Strings` byte order and code-point order agree. Invalid UTF-8 in command output is not modelled.
- `build_binary.py` is not part of this model.

## Findings

| source | as written | input that shows it | evidently intended | confidence | as-written member | corrected member |
|---|---|---|---|---|---|---|
| internal/system/info.go:84-87 | `strconvItoa` negates a negative `n`. For the minimum int that wraps back to itself, the digit loop never runs, and the result is "-". | n = -9223372036854775808 | "-9223372036854775808", the decimal form of every other 64-bit value | not executed; latent, since `readUptime` divides by 3600 first and never passes the minimum | SystemInfo.StrconvItoa, SystemInfo.MinInt64Misprinted | SystemInfo.ItoaRoundTrip |
