# IOS-XR zero-touch provisioning helper, modelled in Dafny

This project models the decision logic of `lib/ztp_helper.py`, the Python
helper that zero-touch provisioning scripts on a Cisco IOS-XR router use to
run exec and config commands, to check that every node of the chassis is up,
and to install an RPM package and wait until every node runs it.

What the helper decides is modelled; what it asks of the outside world is not.
Each shell command is replaced by the reply it would give: an exit status and
the lines of its standard output (`ShellReply`). The download succeeds or fails
as a given boolean. The `rpm -qp` query is an exit status and a text. The
removal of the RPM succeeds or fails as a given boolean. The five-minute
deadline of the polling loop becomes a script of `Tick`s: one pair of replies
(`show install active`, `show platform vm`) for each pass the deadline allows.
Every operation also returns the shell lines, downloads and removals it would
perform, in order, so that "what is run" can be stated as well as "what is
returned".

Modules, leaves first:

- `Wrappers`: `Option`, standing for Python's `None`.
- `PyStr`: the Python 2 `str` operations the helper relies on (`strip`,
  `in`, `count`, `replace`, `split`, `join`, slicing past the end,
  `posixpath.basename`, `os.path.join`, `'%d'`), each pinned by its
  contract or by lemmas about it.
- `XrCmd`: `xrcmd` (argument checks, per-line cleanup, the invalid-input
  marker, dropping empty lines) and the status/output choice of `xrapply`
  and `xrapply_string`.
- `Netns`: `get_netns_path` and the `ZtpHelpers` object's `vrf` and `debug`
  fields (`set_vrf`, `toggle_debug`).
- `InventoryJson`: how an inventory line is turned into JSON by key quoting
  and decoded (RFC 8259, restricted to objects of string values), with the
  round trip for lines in the device's `NAME: "…", DESCR: "…"` format.
- `Readiness`: `all_nodes_ready`, written as the source's loops (a method
  per loop) and proved equal to the specification `ReadySpec`.
- `Install`: `install_xr_package`, written as the source's phase sequence and
  polling loop and proved equal to the specification `InstallSpec`. The
  properties are lemmas about `InstallSpec` and the polling function `Poll`.

## Model

| member | source | states |
|---|---|---|
| `PyStr.Strip` | lib/ztp_helper.py:283 | `strip()` yields the slice of the line between its leading and trailing whitespace, with no whitespace left at either end |
| `PyStr.StripIdempotent` | lib/ztp_helper.py:283 | stripping a stripped line changes nothing |
| `PyStr.ContainsIff` | lib/ztp_helper.py:285 | the `in` test on strings holds exactly when the pattern occurs at some index |
| `PyStr.CountShort` | lib/ztp_helper.py:596 | `str.count` finds nothing in a text shorter than the package name |
| `PyStr.CountFront` | lib/ztp_helper.py:596 | an occurrence at the front is counted once and counting resumes after it, so occurrences never overlap |
| `PyStr.CountSkip` | lib/ztp_helper.py:596 | without an occurrence at the front, counting resumes at the next character; with `CountShort` and `CountFront` this fixes the count of every text |
| `PyStr.CountFits` | lib/ztp_helper.py:596 | `str.count` counts non-overlapping occurrences: count times pattern length never exceeds the text length |
| `PyStr.CountPositiveIffContains` | lib/ztp_helper.py:596 | a nonempty package name is counted at least once exactly when it occurs in the text |
| `PyStr.CountRepeat` | lib/ztp_helper.py:596 | a text made of n copies of the name counts n |
| `PyStr.ReplaceAbsent` | lib/ztp_helper.py:447-448 | `replace` leaves a text without the pattern unchanged |
| `PyStr.SplitWords` | lib/ztp_helper.py:467 | every word of `split()` is nonempty and holds no whitespace |
| `PyStr.SplitSkipsSpace` | lib/ztp_helper.py:467 | whitespace in front of the text adds no word to `split()` |
| `PyStr.SplitWordThenSpace` | lib/ztp_helper.py:467 | words are maximal runs: a non-whitespace run closed by whitespace is exactly the first word, and splitting continues after it |
| `PyStr.SplitLastWord` | lib/ztp_helper.py:467 | a non-whitespace run reaching the end of the text is a single word |
| `PyStr.RStrip` | lib/ztp_helper.py:556 | `rstrip()` yields the prefix of the `rpm` output before its trailing whitespace, ending in a non-whitespace character |
| `PyStr.SplitKeepsText` | lib/ztp_helper.py:467 | the words of `split()`, glued together, are the line with its whitespace removed |
| `PyStr.JoinSnoc` | lib/ztp_helper.py:469 | `' '.join` of one more column is the join so far, a space, and that column; with the contract of `Join` (no parts give "", one part gives itself) this fixes the joined state text, which is "" for a line of at most two columns |
| `PyStr.DropFront` | lib/ztp_helper.py:469 | `node_state[2:]` holds the columns from the third on, in order, and is empty for lines of at most two columns |
| `PyStr.Basename` | lib/ztp_helper.py:161 | the file name is the suffix of the URL path after its last '/', and holds no '/' |
| `PyStr.JoinPath` | lib/ztp_helper.py:533 | `os.path.join` returns an absolute second part alone; otherwise the folder, one '/' exactly when the folder is nonempty and does not end in '/', then the file name |
| `PyStr.NatDigitsRoundTrip` | lib/ztp_helper.py:86 | the decimal digits written for a pid read back as that pid |
| `PyStr.Decimal` | lib/ztp_helper.py:86 | `'%d'` writes a '-' for negative numbers and then nonempty digits without leading zero whose value is the magnitude |
| `XrCmd.FixLines` | lib/ztp_helper.py:282-284 | every output line is fixed in place: same count, line i becomes the stripped line i |
| `XrCmd.NonEmpty` | lib/ztp_helper.py:287 | `filter(None, …)` keeps no empty line and never adds lines |
| `XrCmd.FlaggedStep` | lib/ztp_helper.py:285-286 | after one more line the status is error exactly when that line or an earlier one carries the marker |
| `XrCmd.RunXrCmd` | lib/ztp_helper.py:253-292 | `None` and non-dict arguments give their error messages and run nothing; otherwise the shell line uses the prompt response or "" and the result is success exactly when the exit status is 0 and no stripped line holds the invalid-input marker |
| `XrCmd.ScanLines` | lib/ztp_helper.py:279-287 | the line loop ends with status error iff some stripped line holds the marker, and with the nonempty stripped lines in their original order (the empty string when there were no lines) |
| `XrCmd.Processed` | lib/ztp_helper.py:275-287 | a success result always comes from a zero exit status |
| `XrCmd.NonEmptyAppend` | lib/ztp_helper.py:287 | filtering keeps the order of the lines: it distributes over concatenation |
| `XrCmd.NonEmptyMembers` | lib/ztp_helper.py:287 | a line is kept exactly when it was in the output and is nonempty |
| `XrCmd.NonEmptyNoEmpties` | lib/ztp_helper.py:287 | filtering lines none of which is empty changes nothing |
| `XrCmd.ProcessedLinesStripped` | lib/ztp_helper.py:282-287 | every line of a returned output is nonempty and has no whitespace at either end |
| `XrCmd.ReportCommit` | lib/ztp_helper.py:342-366 | the commit's exit status alone decides the status; the follow-up show command (which one depends on that status) supplies the output, or a fixed message when it fails |
| `XrCmd.XrApply` | lib/ztp_helper.py:319-366 | no file name and an unreadable file under debugging give their errors and run nothing; otherwise the commit line runs, then `show configuration commit changes last 1` on a zero commit status or `show configuration failed` otherwise; the commit decides the status, and the follow-up's output or its fixed fallback message is the output |
| `XrCmd.XrApplyString` | lib/ztp_helper.py:387-428 | no command gives its error and runs nothing; otherwise the commit line runs, then `show configuration commit changes last 1` on a zero commit status or `show configuration failed` otherwise; the commit decides the status, and the follow-up's output or its fixed fallback message is the output |
| `Netns.GetNetnsPath` | lib/ztp_helper.py:83-88 | a nonempty name gives `/var/run/netns/<name>`; else a nonzero pid gives `/proc/<pid>/ns/net`; else the given path is returned |
| `Netns.ZtpHelpers.constructor` | lib/ztp_helper.py:42-51 | a new helper is in the global VRF with debugging off |
| `Netns.ZtpHelpers.SetVrf` | lib/ztp_helper.py:111-114 | a given name (even an empty one) becomes the VRF; no name restores `global-vrf` |
| `Netns.ZtpHelpers.ToggleDebug` | lib/ztp_helper.py:97-102 | the debug flag becomes the given setting |
| `Netns.ZtpHelpers.VrfNamespacePath` | lib/ztp_helper.py:157 | the namespace file of the current VRF is `/var/run/netns/<vrf>`, and there is none for an empty VRF name |
| `InventoryJson.SkipWs` | lib/ztp_helper.py:449 | the decoder skips exactly the JSON whitespace characters |
| `InventoryJson.QuotedInventoryLine` | lib/ztp_helper.py:446-448 | bracing and quoting a device line quotes the two keys and touches nothing else |
| `InventoryJson.ParseQuotedLine` | lib/ztp_helper.py:449-450 | the quoted object decodes to NAME and DESCR with their values |
| `InventoryJson.InventoryLineRoundTrip` | lib/ztp_helper.py:446-450 | a device line whose name and description are plain decodes, after quoting, to exactly its name and description |
| `InventoryJson.ParseTwoMembers` | lib/ztp_helper.py:449 | the text `{"k1": "v1", "k2": "v2"}`, laid out with one space after each colon and after the comma and with keys and values free of quotes, backslashes and control characters, decodes to both pairs, the second winning on a repeated key |
| `Readiness.NodeTypeCases` | lib/ztp_helper.py:24-27 | a description names a node type iff it contains "Line Card", "LC", "Route Processor" or "Route Switch Processor" |
| `Readiness.ClassifyDeviceLine` | lib/ztp_helper.py:446-450 | a device line is tracked iff its description names a node type, and then under its own name |
| `Readiness.InventoryNodes` | lib/ztp_helper.py:445-450 | the inventory loop succeeds iff no line fails to decode, and then tracks exactly the names of the tracked lines, duplicates collapsing |
| `Readiness.InventoryFirstError` | lib/ztp_helper.py:444-458 | a failing inventory loop returns the exception of the first line that cannot be decoded |
| `Readiness.InventoryRaisedStays` | lib/ztp_helper.py:454-458 | once a line has failed, later lines do not matter: there is no partial skipping |
| `Readiness.ScanInventory` | lib/ztp_helper.py:441-450 | the inventory loop fills the node table with every tracked name, each inactive, or stops at the first bad line |
| `Readiness.ScanNode` | lib/ztp_helper.py:466-471 | for one node the platform loop raises at a blank line and otherwise finds whether some line's first column contains `<node>/CPU` and its third column on contains "IOS XR RUN" |
| `Readiness.MarkRunning` | lib/ztp_helper.py:464-476 | the table keeps its nodes; a node ends active exactly when a platform line shows it running; nodes never go back to inactive |
| `Readiness.AllNodesReady` | lib/ztp_helper.py:431-496 | the method returns `ReadySpec` and issues `show platform` only after a successful, fully decoded inventory |
| `Readiness.ReadyErrors` | lib/ztp_helper.py:440-486 | a failed inventory command or an undecodable line ends with an error and no `show platform`; a failed platform command gives its own message |
| `Readiness.ReadyMeans` | lib/ztp_helper.py:493-496 | with both commands successful and the inventory decoded, the result is success with `True` if every tracked node runs IOS XR and success with `False` otherwise |
| `Readiness.ReadyVacuous` | lib/ztp_helper.py:493-494 | with no tracked node the result is success/true |
| `Readiness.AllTrackedRunning` | lib/ztp_helper.py:493 | all tracked names run iff the node of every tracked line runs |
| `Readiness.NoBlankLines` | lib/ztp_helper.py:467 | a successful `xrcmd` output holds no blank line, so `split()[0]` cannot fail on it |
| `Readiness.NeverIndexError` | lib/ztp_helper.py:472-476 | the readiness check never returns an `IndexError` |
| `Install.RunTick` | lib/ztp_helper.py:566-619 | one pass runs `show install active`, then `show platform vm` only if that succeeded, and decides as `TickFate` |
| `Install.PollTicks` | lib/ztp_helper.py:563-619 | the polling loop ends and runs what `Poll` says: one pass per tick, stopping at the first failure or match |
| `Install.RunInstall` | lib/ztp_helper.py:540-630 | the phases after the download return what `Installing` says |
| `Install.InstallXrPackage` | lib/ztp_helper.py:499-639 | the whole call returns and does what `InstallSpec` says |
| `Install.DownloadFailureShortCircuits` | lib/ztp_helper.py:512-523 | a failed download returns the initial error result unchanged and runs no query, no command and no removal |
| `Install.TickFateCases` | lib/ztp_helper.py:566-619 | a pass stops with a fetch failure iff a command fails, stops installed iff the name count equals the node-line count, and goes on iff they differ |
| `Install.TickFateNeverTimesOut` | lib/ztp_helper.py:566-619 | a single pass never reports a timeout |
| `Install.ContinueRanBoth` | lib/ztp_helper.py:566-596 | a pass that goes on ran both show commands |
| `Install.RunStopsAt` | lib/ztp_helper.py:564-613 | the loop ends at the first stopping pass with its outcome, and later passes do not matter |
| `Install.RunTimeoutIff` | lib/ztp_helper.py:563-564 | the loop times out iff every pass goes on |
| `Install.RunFirstStop` | lib/ztp_helper.py:564-613 | a loop that does not time out was stopped by a pass after passes that all went on |
| `Install.RunOnlyExecs` | lib/ztp_helper.py:564-619 | the loop runs only what its passes run |
| `Install.PollStopsAt` | lib/ztp_helper.py:566-590 | a failing show command or a match ends polling at once; replies scripted for later passes are never read, so nothing is retried |
| `Install.PassesPrefix` | lib/ztp_helper.py:564 | the passes of a shorter deadline are a prefix of the passes of a longer one |
| `Install.PollTimeoutIff` | lib/ztp_helper.py:563-622 | polling times out iff every pass finds unequal counts, having then run both commands on every pass |
| `Install.PollFirstStop` | lib/ztp_helper.py:564-613 | a loop that ends early was ended by the first stopping pass |
| `Install.PollOnlyExecs` | lib/ztp_helper.py:564-619 | polling runs XR exec commands only |
| `Install.RemovedOnceAtEnd` | lib/ztp_helper.py:549-639 | after a successful download the call queries the RPM, runs only XR commands, and removes the RPM exactly once, as its last action |
| `Install.InstallingOnlyExecs` | lib/ztp_helper.py:540-630 | between the query and the removal only XR commands run |
| `Install.RemovalFailureOnlyWarns` | lib/ztp_helper.py:549-638 | a failed removal adds only the warning "failed to remove RPM from path: <path>"; status, output and actions are unchanged |
| `Install.InstallingNoWarning` | lib/ztp_helper.py:540-630 | before the cleanup no result carries a warning |
| `Install.SuccessIff` | lib/ztp_helper.py:499-639 | the call succeeds iff download, query and `install update` succeed and some pass finds equal counts after every earlier pass found them unequal |
| `Install.InstallingSucceeds` | lib/ztp_helper.py:540-630 | after the download, success means query and update succeeded and polling ended installed |
| `Install.InstalledIff` | lib/ztp_helper.py:592-613 | polling ends installed iff some pass matches after every earlier pass went on |
| `Install.OverCountTimesOut` | lib/ztp_helper.py:596-622 | the comparison is strict: a name counted more often than there are node lines on every pass never succeeds and ends "timed out" |

## Left out

- The shell (`subprocess.Popen`), the `rpm -qp` query, the HTTP download and the file removal: each is a given reply. The model does not say how a reply arises from a command.
- The five-minute wall clock and the 10-second sleep: the deadline is the number of scripted ticks. How many passes fit in five minutes is not modelled.
- The 30-second sleep in `set_vrf`: real-time waiting with no effect on results.
- `setns` through `libc` and opening the namespace file: operating-system calls.
- `urlparse.urlsplit`: the URL's path is a parameter of `InstallXrPackage`. Only the file-name step (`posixpath.basename`) is modelled.
- An exception other than `HTTPError`/`URLError` in `download_file`, such as a failure to open the namespace file: it escapes `install_xr_package` and is not modelled.
- Logging: `setup_syslog`, `setup_debug_logger`, and every debug and syslog call. `ToggleDebug` models only the debug flag, not the logger's `propagate` setting.
- `InventoryJson.ParseObject` decodes only objects whose values are strings. A value of another JSON type counts as a decode failure here, while Python would decode it and, in some cases, track the node or fail later with a `TypeError`. A `\u` escape naming half of a surrogate pair is also a failure, because Dafny characters are Unicode scalar values.
- A `cmd` dict without `exec_cmd` makes `xrcmd` raise `KeyError`. This is not modelled: `CmdArg.ExecCmd` always carries the command.
- The reading of the config file under debugging in `xrapply` is a boolean (`readable`). The file's contents are only logged.
- `XrApply` takes the debug flag as a parameter rather than reading `ZtpHelpers.debug`, and `InstallXrPackage` takes the download's outcome rather than the namespace path of `ZtpHelpers.vrf`: the object's fields and the operations are connected only through those parameters.
- Python 2 `str` is a byte string; the model uses Dafny strings (`seq<char>`). Whitespace is the six ASCII characters Python 2's `strip` and `split` use.
- `sample_ztp_script.py`: a demo caller with no logic of its own.
