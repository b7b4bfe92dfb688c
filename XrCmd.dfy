/** `xrcmd`, `xrapply` and `xrapply_string` of the ZTP helper: how the reply
    of an IOS-XR exec or config shell command becomes a `{status, output}`
    result. The shell itself is not modelled: each call receives the reply
    the shell would give, as a value. */
module XrCmd {
  import opened Wrappers
  import opened PyStr

  datatype Status = Success | Error

  /** What a shell command gives back: its exit status and `out.splitlines()`. */
  datatype ShellReply = ShellReply(returncode: int, lines: seq<string>)

  /** The `cmd` argument of `xrcmd`: `None`, something that is not a dict, or
      a dict with `exec_cmd` and perhaps `prompt_response`. */
  datatype CmdArg = NoCmd | NotADict | ExecCmd(exec: string, promptResponse: Option<string>)

  /** The `output` entry: a message string, or a list of lines. */
  datatype Output = Text(text: string) | Lines(lines: seq<string>)

  /** The `{status, output}` dict returned by `xrcmd` and `xrapply*`. */
  datatype CmdResult = CmdResult(status: Status, output: Output)

  /** The text IOS-XR prints, on a zero exit status, for a command it rejects. */
  const InvalidInputMarker: string := "% Invalid input detected at '^' marker."

  const HelperScript: string := "source /pkg/bin/ztp_helper.sh"

  /** The shell line `xrcmd` runs for an exec command and a prompt response. */
  function ExecShellLine(exec: string, prompt: string): string {
    HelperScript + " && echo -ne \"" + prompt + " \" | xrcmd \"" + exec + "\""
  }

  /** One output line as `xrcmd` keeps it: newlines turned to spaces, then stripped. */
  function FixLine(line: string): string {
    Strip(Replace(line, "\n", " "))
  }

  /** `FixLine` applied to every line, in order. */
  function FixLines(lines: seq<string>): (r: seq<string>)
    ensures |r| == |lines|
    ensures forall i :: 0 <= i < |lines| ==> r[i] == FixLine(lines[i])
  {
    if lines == [] then [] else FixLines(lines[..|lines| - 1]) + [FixLine(lines[|lines| - 1])]
  }

  /** `filter(None, xs)`: the nonempty strings of `xs`, in order. */
  function NonEmpty(xs: seq<string>): (r: seq<string>)
    ensures |r| <= |xs|
    ensures forall i :: 0 <= i < |r| ==> r[i] != []
  {
    if xs == [] then [] else (if xs[0] == [] then [] else [xs[0]]) + NonEmpty(xs[1..])
  }

  /** Some line carries the invalid-input marker. */
  predicate Flagged(kept: seq<string>) {
    exists i :: 0 <= i < |kept| && Contains(kept[i], InvalidInputMarker)
  }

  /** One more line is flagged when it, or an earlier one, carries the marker. */
  lemma FlaggedStep(kept: seq<string>, line: string)
    ensures Flagged(kept + [line]) <==> Flagged(kept) || Contains(line, InvalidInputMarker)
  {
    var all := kept + [line];
    if Flagged(kept) {
      var i :| 0 <= i < |kept| && Contains(kept[i], InvalidInputMarker);
      assert all[i] == kept[i];
    }
    if Contains(line, InvalidInputMarker) {
      assert all[|kept|] == line;
    }
  }

  /** The result `xrcmd` builds from a shell reply. */
  function Processed(reply: ShellReply): (r: CmdResult)
    ensures r.status == Success ==> reply.returncode == 0
  {
    if reply.returncode != 0 then CmdResult(Error, Text("Failed to get command output"))
    else
      CmdResult(if Flagged(FixLines(reply.lines)) then Error else Success,
                if reply.lines == [] then Text("") else Lines(NonEmpty(FixLines(reply.lines))))
  }

  /** What the command output gives a `for` loop: the lines, or the
      characters of a message. */
  function Items(out: Output): (r: seq<string>)
    ensures out.Lines? ==> r == out.lines
    ensures out.Text? ==> |r| == |out.text|
  {
    match out
    case Lines(ls) => ls
    case Text(t) => seq(|t|, i requires 0 <= i < |t| => [t[i]])
  }

  /** `xrcmd(cmd)`: checks the argument, runs the command (`shell` is the
      line handed to the shell, `reply` what the shell gives back) and turns
      the reply into a result. */
  method RunXrCmd(arg: CmdArg, reply: ShellReply) returns (r: CmdResult, shell: Option<string>)
    ensures arg.NoCmd? ==> r == CmdResult(Error, Text("No command specified")) && shell == None
    ensures arg.NotADict? ==>
      r == CmdResult(Error, Text("Dictionary expected as cmd argument, see method documentation")) && shell == None
    ensures arg.ExecCmd? ==> shell == Some(ExecShellLine(arg.exec, arg.promptResponse.GetOr("")))
    ensures arg.ExecCmd? ==> r == Processed(reply)
    ensures arg.ExecCmd? ==>
      (r.status == Success <==>
         (reply.returncode == 0
          && forall i :: 0 <= i < |reply.lines| ==> !Contains(FixLine(reply.lines[i]), InvalidInputMarker)))
  {
    if arg.NoCmd? {
      return CmdResult(Error, Text("No command specified")), None;
    }
    if arg.NotADict? {
      return CmdResult(Error, Text("Dictionary expected as cmd argument, see method documentation")), None;
    }
    var prompt := arg.promptResponse.GetOr("");
    shell := Some(ExecShellLine(arg.exec, prompt));
    if reply.returncode != 0 {
      r := CmdResult(Error, Text("Failed to get command output"));
    } else {
      var status, output := ScanLines(reply.lines);
      r := CmdResult(status, output);
    }
  }

  /** The loop of `xrcmd` over the lines of a successful command: each line
      is fixed and kept, the marker turns the status to error, and the
      output is refreshed to the nonempty lines kept so far. */
  method ScanLines(lines: seq<string>) returns (status: Status, output: Output)
    ensures status == Error <==> Flagged(FixLines(lines))
    ensures output == if lines == [] then Text("") else Lines(NonEmpty(FixLines(lines)))
  {
    status := Success;
    var outputList: seq<string> := [];
    output := Text("");
    var i := 0;
    while i < |lines|
      invariant 0 <= i <= |lines|
      invariant outputList == FixLines(lines[..i])
      invariant status == if Flagged(outputList) then Error else Success
      invariant output == if i == 0 then Text("") else Lines(NonEmpty(outputList))
    {
      var fixedLine := FixLine(lines[i]);
      outputList := outputList + [fixedLine];
      if Contains(fixedLine, InvalidInputMarker) {
        status := Error;
      }
      output := Lines(NonEmpty(outputList));
      assert lines[..i + 1][..i] == lines[..i];
      FlaggedStep(FixLines(lines[..i]), fixedLine);
      i := i + 1;
    }
    assert lines[..i] == lines;
  }

  /** Filtering distributes over concatenation: it keeps the order of the lines. */
  lemma {:induction false} NonEmptyAppend(xs: seq<string>, ys: seq<string>)
    ensures NonEmpty(xs + ys) == NonEmpty(xs) + NonEmpty(ys)
  {
    if xs == [] {
      assert xs + ys == ys;
    } else {
      assert (xs + ys)[1..] == xs[1..] + ys;
      NonEmptyAppend(xs[1..], ys);
    }
  }

  /** Filtering keeps exactly the nonempty lines. */
  lemma {:induction false} NonEmptyMembers(xs: seq<string>, x: string)
    ensures x in NonEmpty(xs) <==> x in xs && x != []
  {
    if xs != [] {
      NonEmptyMembers(xs[1..], x);
      assert xs == [xs[0]] + xs[1..];
    }
  }

  /** Filtering a list without empty lines changes nothing. */
  lemma {:induction false} NonEmptyNoEmpties(xs: seq<string>)
    requires forall i :: 0 <= i < |xs| ==> xs[i] != []
    ensures NonEmpty(xs) == xs
  {
    if xs != [] {
      NonEmptyNoEmpties(xs[1..]);
    }
  }

  /** Every line of a successful output is a stripped shell line: nonempty,
      with no whitespace at either end. */
  lemma ProcessedLinesStripped(reply: ShellReply, k: int)
    requires Processed(reply).output.Lines? && 0 <= k < |Processed(reply).output.lines|
    ensures var line := Processed(reply).output.lines[k];
      line != [] && !IsSpace(line[0]) && !IsSpace(line[|line| - 1])
  {
    var fixed := FixLines(reply.lines);
    var line := Processed(reply).output.lines[k];
    NonEmptyMembers(fixed, line);
    assert line in fixed;
  }

  /** `xrapply` and `xrapply_string` after the commit: the commit's exit
      status alone decides the status; a follow-up show command supplies
      the output, or a fixed message when that command fails. */
  method ReportCommit(commitCode: int, followUp: ShellReply) returns (r: CmdResult, shell: string)
    ensures r.status == Success <==> commitCode == 0
    ensures shell == ExecShellLine(if commitCode == 0 then "show configuration commit changes last 1"
                                   else "show configuration failed", "")
    ensures Processed(followUp).status == Success ==> r.output == Processed(followUp).output
    ensures Processed(followUp).status == Error ==>
      r.output == Text(if commitCode == 0 then "Failed to fetch last config change"
                       else "Failed to fetch config failed output")
  {
    if commitCode != 0 {
      var configFailed, line := RunXrCmd(ExecCmd("show configuration failed", None), followUp);
      var output := if configFailed.status == Error then Text("Failed to fetch config failed output")
                    else configFailed.output;
      r, shell := CmdResult(Error, output), line.value;
    } else {
      var configChange, line := RunXrCmd(ExecCmd("show configuration commit changes last 1", None), followUp);
      var output := if configChange.status == Error then Text("Failed to fetch last config change")
                    else configChange.output;
      r, shell := CmdResult(Success, output), line.value;
    }
  }

  /** The shell line `xrapply` commits a config file with. */
  function ApplyFileLine(filename: string, reason: Option<string>): string {
    match reason
    case Some(why) => HelperScript + " && xrapply_with_reason \"" + why + "\" " + filename
    case None => HelperScript + " && xrapply " + filename
  }

  /** `xrapply(filename, reason)`: `readable` says whether the file can be
      opened, which is only tried with debugging on; `commitCode` is the
      exit status of the commit and `followUp` the reply of the show
      command after it. `shell` lists the shell lines run, in order. */
  method XrApply(filename: Option<string>, reason: Option<string>, debug: bool, readable: bool,
                 commitCode: int, followUp: ShellReply)
    returns (r: CmdResult, shell: seq<string>)
    ensures filename.None? ==> r == CmdResult(Error, Text("No config file provided for xrapply")) && shell == []
    ensures filename.Some? && debug && !readable ==>
      r == CmdResult(Error, Text("Invalid config file provided")) && shell == []
    ensures filename.Some? && (readable || !debug) ==>
      |shell| == 2 && shell[0] == ApplyFileLine(filename.value, reason)
      && shell[1] == ExecShellLine(if commitCode == 0 then "show configuration commit changes last 1"
                                   else "show configuration failed", "")
      && (r.status == Success <==> commitCode == 0)
      && (Processed(followUp).status == Success ==> r.output == Processed(followUp).output)
      && (Processed(followUp).status == Error ==>
            r.output == Text(if commitCode == 0 then "Failed to fetch last config change"
                             else "Failed to fetch config failed output"))
  {
    if filename.None? {
      return CmdResult(Error, Text("No config file provided for xrapply")), [];
    }
    if debug && !readable {
      return CmdResult(Error, Text("Invalid config file provided")), [];
    }
    var line := ApplyFileLine(filename.value, reason);
    var followLine;
    r, followLine := ReportCommit(commitCode, followUp);
    shell := [line, followLine];
  }

  /** The shell line `xrapply_string` commits a one-line config with. */
  function ApplyStringLine(cmd: string, reason: Option<string>): string {
    match reason
    case Some(why) => HelperScript + " && xrapply_string_with_reason \"" + why + "\" \"" + cmd + "\""
    case None => HelperScript + " && xrapply_string \"" + cmd + "\""
  }

  /** `xrapply_string(cmd, reason)`, with the same collaborators as `XrApply`. */
  method XrApplyString(cmd: Option<string>, reason: Option<string>, commitCode: int, followUp: ShellReply)
    returns (r: CmdResult, shell: seq<string>)
    ensures cmd.None? ==> r == CmdResult(Error, Text("Config command not specified")) && shell == []
    ensures cmd.Some? ==>
      |shell| == 2 && shell[0] == ApplyStringLine(cmd.value, reason)
      && shell[1] == ExecShellLine(if commitCode == 0 then "show configuration commit changes last 1"
                                   else "show configuration failed", "")
      && (r.status == Success <==> commitCode == 0)
      && (Processed(followUp).status == Success ==> r.output == Processed(followUp).output)
      && (Processed(followUp).status == Error ==>
            r.output == Text(if commitCode == 0 then "Failed to fetch last config change"
                             else "Failed to fetch config failed output"))
  {
    if cmd.None? {
      return CmdResult(Error, Text("Config command not specified")), [];
    }
    var line := ApplyStringLine(cmd.value, reason);
    var followLine;
    r, followLine := ReportCommit(commitCode, followUp);
    shell := [line, followLine];
  }
}
