/** `install_xr_package`: download an RPM into the scratch folder, read its
    package name, start `install update`, poll until every node runs the
    package or the time runs out, and remove the RPM on every exit after the
    download.

    The collaborators are given as values: whether the download succeeds,
    the reply of the `rpm` query, the reply of `install update`, one
    `Tick` of replies for each poll the five-minute deadline allows, and
    whether removing the RPM succeeds. */
module Install {
  import opened Wrappers
  import opened PyStr
  import opened XrCmd

  const ScratchFolder: string := "/misc/app_host/scratch"
  const InitialOutput: string := "Installation of package  failed!"
  const InstallActiveCmd: string := "show install active"
  const PlatformVmCmd: string := "show platform vm"

  /** The `{status, output, warning}` dict the call returns. */
  datatype InstallResult = InstallResult(status: Status, output: string, warning: Option<string>)

  /** The reply of the `rpm -qp` query: exit status and standard output. */
  datatype RpmReply = RpmReply(returncode: int, out: string)

  /** The replies of one pass of the polling loop. */
  datatype Tick = Tick(installActive: ShellReply, platformVm: ShellReply)

  datatype InstallEnv = InstallEnv(
    downloadOk: bool, rpm: RpmReply, installUpdate: ShellReply, ticks: seq<Tick>, removeOk: bool)

  /** What the call does to the outside world, in order. */
  datatype Action = Download(url: string, folder: string) | Query(cmd: string) | Exec(line: string) | Remove(path: string)

  /** How the polling loop ends. */
  datatype PollEnd = Installed | FetchFailed(message: string) | TimedOut

  /** What one pass of the loop decides. */
  datatype Fate = Continue | Stop(end: PollEnd)

  /** The downloaded file's name: the last component of the URL's path. */
  function RpmName(urlPath: string): string {
    Basename(urlPath)
  }

  function RpmPath(urlPath: string): string {
    JoinPath(ScratchFolder, RpmName(urlPath))
  }

  function QueryCmd(rpmPath: string): string {
    "rpm -qp --qf \"%{NAME}\n\"  " + rpmPath
  }

  function UpdateLine(rpmName: string): string {
    ExecShellLine("install update source " + ScratchFolder + " " + rpmName, "")
  }

  const InstallActiveLine: string := ExecShellLine(InstallActiveCmd, "")
  const PlatformVmLine: string := ExecShellLine(PlatformVmCmd, "")

  /** The convergence test: the package name occurs, counted without
      overlap in the joined `show install active` lines, exactly as many
      times as `show platform vm` has lines after its two header lines. */
  predicate Converged(name: string, installActive: Output, platformVm: Output) {
    Count(Join("", Items(installActive)), name) == |DropFront(Items(platformVm), 2)|
  }

  /** What one pass of the loop decides from its two replies. */
  function TickFate(name: string, t: Tick): Fate {
    var active := Processed(t.installActive);
    if active.status == Error then
      Stop(FetchFailed("Failed to fetch output of show install active -Installation of package " + name + " failed"))
    else
      var vm := Processed(t.platformVm);
      if vm.status == Error then
        Stop(FetchFailed("Failed to fetch output of show platform vm -Installation of package " + name + " failed"))
      else if Converged(name, active.output, vm.output) then Stop(Installed)
      else Continue
  }

  /** The commands one pass runs: `show platform vm` only after
      `show install active` succeeded. */
  function TickActions(t: Tick): seq<Action> {
    if Processed(t.installActive).status == Error then [Exec(InstallActiveLine)]
    else [Exec(InstallActiveLine), Exec(PlatformVmLine)]
  }

  /** One pass of the loop: what it decides and the commands it ran. */
  datatype Pass = Pass(fate: Fate, ran: seq<Action>)

  function TickPass(name: string, t: Tick): Pass {
    Pass(TickFate(name, t), TickActions(t))
  }

  /** The pass each tick's replies make. */
  function Passes(name: string, ticks: seq<Tick>): (ps: seq<Pass>)
    ensures |ps| == |ticks|
  {
    seq(|ticks|, i requires 0 <= i < |ticks| => TickPass(name, ticks[i]))
  }

  /** The loop from pass `i` on: it stops at the first pass that says so,
      and times out when the passes run out. */
  function Run(ps: seq<Pass>, i: nat): (PollEnd, seq<Action>)
    requires i <= |ps|
    decreases |ps| - i
  {
    if i == |ps| then (TimedOut, [])
    else
      match ps[i].fate
      case Stop(end) => (end, ps[i].ran)
      case Continue =>
        var rest := Run(ps, i + 1);
        (rest.0, ps[i].ran + rest.1)
  }

  /** The polling loop over the scripted ticks: how it ends and what it runs. */
  function Poll(name: string, ticks: seq<Tick>): (PollEnd, seq<Action>) {
    Run(Passes(name, ticks), 0)
  }

  /** The best-effort removal of the RPM: a failure only adds a warning. */
  function Cleanup(result: InstallResult, rpmPath: string, removeOk: bool): InstallResult {
    if removeOk then result else result.(warning := Some("failed to remove RPM from path: " + rpmPath))
  }

  /** The result once the loop has ended. */
  function Concluded(name: string, end: PollEnd): InstallResult {
    match end
    case Installed => InstallResult(Success, "Installation of " + name + " package successful", None)
    case FetchFailed(message) => InstallResult(Error, message, None)
    case TimedOut => InstallResult(Error, "Installation of " + name + " package timed out", None)
  }

  /** What the call decides between the RPM query and the cleanup: the
      result before the removal, and the shell commands it ran. */
  function Installing(rpmName: string, rpm: RpmReply, installUpdate: ShellReply, ticks: seq<Tick>): (InstallResult, seq<Action>) {
    if rpm.returncode != 0 then
      (InstallResult(Error, "Failed to get the package name from RPM " + rpmName, None), [])
    else
      var name := RStrip(rpm.out);
      var update := [Exec(UpdateLine(rpmName))];
      if Processed(installUpdate).status == Error then
        (InstallResult(Error, "Failed to execute install update command for package: " + name, None), update)
      else
        var (end, polled) := Poll(name, ticks);
        (Concluded(name, end), update + polled)
  }

  /** What `install_xr_package(url)` returns and does. */
  function InstallSpec(url: string, urlPath: string, env: InstallEnv): (InstallResult, seq<Action>) {
    var download := [Download(url, ScratchFolder)];
    if !env.downloadOk then (InstallResult(Error, InitialOutput, None), download)
    else
      var rpmPath := RpmPath(urlPath);
      var (before, ran) := Installing(RpmName(urlPath), env.rpm, env.installUpdate, env.ticks);
      (Cleanup(before, rpmPath, env.removeOk), download + [Query(QueryCmd(rpmPath))] + ran + [Remove(rpmPath)])
  }

  /** One pass of the polling loop: `show install active`, then, if that
      succeeded, `show platform vm`, and the comparison of the two. */
  method RunTick(packageName: string, t: Tick) returns (fate: Fate, ran: seq<Action>)
    ensures fate == TickFate(packageName, t) && ran == TickActions(t)
  {
    var installActive, activeLine := RunXrCmd(ExecCmd(InstallActiveCmd, None), t.installActive);
    ran := [Exec(activeLine.value)];
    if installActive.status == Error {
      fate := Stop(FetchFailed("Failed to fetch output of show install active -Installation of package " + packageName + " failed"));
      return;
    }
    var showActiveNodes, vmLine := RunXrCmd(ExecCmd(PlatformVmCmd, None), t.platformVm);
    ran := ran + [Exec(vmLine.value)];
    if showActiveNodes.status == Error {
      fate := Stop(FetchFailed("Failed to fetch output of show platform vm -Installation of package " + packageName + " failed"));
      return;
    }
    var activeNodes := |DropFront(Items(showActiveNodes.output), 2)|;
    var installCount := Count(Join("", Items(installActive.output)), packageName);
    fate := if installCount == activeNodes then Stop(Installed) else Continue;
  }

  /** The polling loop: one pass per tick, stopping at the first fetch
      error or at convergence. */
  method PollTicks(packageName: string, ticks: seq<Tick>) returns (end: PollEnd, polled: seq<Action>)
    ensures (end, polled) == Poll(packageName, ticks)
  {
    ghost var ps := Passes(packageName, ticks);
    end := TimedOut;
    polled := [];
    assert polled + Run(ps, 0).1 == Run(ps, 0).1;
    var i := 0;
    while i < |ticks|
      invariant 0 <= i <= |ticks|
      invariant Run(ps, 0) == (Run(ps, i).0, polled + Run(ps, i).1)
    {
      var fate, ran := RunTick(packageName, ticks[i]);
      assert Pass(fate, ran) == ps[i];
      if fate.Stop? {
        polled := polled + ran;
        end := fate.end;
        return;
      }
      assert polled + Run(ps, i).1 == (polled + ran) + Run(ps, i + 1).1;
      polled := polled + ran;
      i := i + 1;
    }
    assert polled + Run(ps, i).1 == polled;
  }

  /** The part of `install_xr_package` between the RPM query and the
      cleanup: read the package name, run `install update`, and poll. */
  method RunInstall(rpmName: string, rpm: RpmReply, installUpdate: ShellReply, ticks: seq<Tick>)
    returns (result: InstallResult, ran: seq<Action>)
    ensures (result, ran) == Installing(rpmName, rpm, installUpdate, ticks)
  {
    result := InstallResult(Error, InitialOutput, None);
    ran := [];
    if rpm.returncode != 0 {
      result := result.(status := Error, output := "Failed to get the package name from RPM " + rpmName);
      return;
    }
    var packageName := RStrip(rpm.out);
    var update, updateLine := RunXrCmd(ExecCmd("install update source " + ScratchFolder + " " + rpmName, None),
                                       installUpdate);
    ran := [Exec(updateLine.value)];
    if update.status == Error {
      result := result.(status := Error, output := "Failed to execute install update command for package: " + packageName);
      return;
    }
    var end, polled := PollTicks(packageName, ticks);
    ran := ran + polled;
    match end {
      case Installed =>
        result := result.(status := Success, output := "Installation of " + packageName + " package successful");
      case FetchFailed(message) =>
        result := result.(status := Error, output := message);
      case TimedOut =>
        result := result.(output := "Installation of " + packageName + " package timed out");
    }
  }

  /** `install_xr_package(package_url)`. `urlPath` is the path part of the
      URL, from which the file name is taken. */
  method InstallXrPackage(url: string, urlPath: string, env: InstallEnv) returns (result: InstallResult, trace: seq<Action>)
    ensures (result, trace) == InstallSpec(url, urlPath, env)
  {
    result := InstallResult(Error, InitialOutput, None);
    trace := [Download(url, ScratchFolder)];
    if !env.downloadOk {
      return;
    }
    var rpmName := RpmName(urlPath);
    var rpmPath := JoinPath(ScratchFolder, rpmName);
    trace := trace + [Query(QueryCmd(rpmPath))];
    var ran;
    result, ran := RunInstall(rpmName, env.rpm, env.installUpdate, env.ticks);
    result := Cleanup(result, rpmPath, env.removeOk);
    trace := trace + ran + [Remove(rpmPath)];
  }

  // ---- What the result means ----

  /** A failed download returns the initial result untouched and does
      nothing else: no query, no command, no removal. */
  lemma DownloadFailureShortCircuits(url: string, urlPath: string, env: InstallEnv)
    requires !env.downloadOk
    ensures InstallSpec(url, urlPath, env) == (InstallResult(Error, InitialOutput, None), [Download(url, ScratchFolder)])
  {
  }

  /** How one pass decides: it stops with a fetch failure when either
      command fails, it stops installed when both succeed and the counts are
      equal, and it goes on exactly when both succeed and they differ. */
  lemma TickFateCases(name: string, t: Tick)
    ensures var active := Processed(t.installActive);
      var vm := Processed(t.platformVm);
      && (TickFate(name, t).Stop? && TickFate(name, t).end.FetchFailed? <==>
            active.status == Error || vm.status == Error)
      && (TickFate(name, t) == Stop(Installed) <==>
            active.status == Success && vm.status == Success
            && Count(Join("", Items(active.output)), name) == |DropFront(Items(vm.output), 2)|)
      && (TickFate(name, t) == Continue <==>
            active.status == Success && vm.status == Success
            && Count(Join("", Items(active.output)), name) != |DropFront(Items(vm.output), 2)|)
  {
  }

  /** A single pass never times out: only the loop does. */
  lemma TickFateNeverTimesOut(name: string, t: Tick)
    ensures TickFate(name, t) != Stop(TimedOut)
  {
  }

  /** A pass that goes on ran both commands. */
  lemma ContinueRanBoth(name: string, t: Tick)
    requires TickFate(name, t) == Continue
    ensures TickActions(t) == [Exec(InstallActiveLine), Exec(PlatformVmLine)]
  {
  }

  /** The loop ends at the first pass that stops, with that pass's
      outcome, and the passes after it do not matter. */
  lemma {:induction false} RunStopsAt(ps: seq<Pass>, i: nat, k: nat)
    requires i <= k < |ps| && ps[k].fate.Stop?
    requires forall j :: i <= j < k ==> ps[j].fate == Continue
    ensures Run(ps, i).0 == ps[k].fate.end
    ensures Run(ps, i) == Run(ps[..k + 1], i)
    decreases k - i
  {
    var cut := ps[..k + 1];
    assert cut[i] == ps[i];
    if i < k {
      RunStopsAt(ps, i + 1, k);
      assert forall j :: i + 1 <= j < k ==> cut[j] == ps[j];
      assert cut[k] == ps[k] && cut[..k + 1] == cut;
      RunStopsAt(cut, i + 1, k);
    }
  }

  /** The loop times out exactly when every pass goes on; if every pass ran
      two commands, it then ran twice as many as there were passes. */
  lemma {:induction false} RunTimeoutIff(ps: seq<Pass>, i: nat)
    requires i <= |ps|
    requires forall j :: i <= j < |ps| ==> ps[j].fate != Stop(TimedOut)
    ensures Run(ps, i).0 == TimedOut <==> forall j :: i <= j < |ps| ==> ps[j].fate == Continue
    ensures (forall j :: i <= j < |ps| ==> ps[j].fate == Continue && |ps[j].ran| == 2) ==>
      |Run(ps, i).1| == 2 * (|ps| - i)
    decreases |ps| - i
  {
    if i < |ps| {
      RunTimeoutIff(ps, i + 1);
    }
  }

  /** When the loop does not time out, some pass stopped it, every pass
      before that one went on, and its outcome is the loop's. */
  lemma {:induction false} RunFirstStop(ps: seq<Pass>, i: nat)
    requires i <= |ps| && Run(ps, i).0 != TimedOut
    ensures exists k ::
      && i <= k < |ps| && ps[k].fate == Stop(Run(ps, i).0)
      && forall j :: i <= j < k ==> ps[j].fate == Continue
    decreases |ps| - i
  {
    if ps[i].fate.Stop? {
      assert ps[i].fate == Stop(Run(ps, i).0);
    } else {
      RunFirstStop(ps, i + 1);
      var k :| && i + 1 <= k < |ps| && ps[k].fate == Stop(Run(ps, i + 1).0)
        && forall j :: i + 1 <= j < k ==> ps[j].fate == Continue;
      assert ps[k].fate == Stop(Run(ps, i).0);
    }
  }

  /** The loop runs only what its passes run. */
  lemma {:induction false} RunOnlyExecs(ps: seq<Pass>, i: nat)
    requires i <= |ps|
    requires forall j, a :: 0 <= j < |ps| && a in ps[j].ran ==> a.Exec?
    ensures forall a :: a in Run(ps, i).1 ==> a.Exec?
    decreases |ps| - i
  {
    if i < |ps| {
      RunOnlyExecs(ps, i + 1);
    }
  }

  /** The polling loop ends at the first pass that stops, with its outcome;
      the replies scripted for later passes are never read, so a fetch
      failure is final and not retried. */
  lemma PollStopsAt(name: string, ticks: seq<Tick>, k: nat)
    requires k < |ticks| && TickFate(name, ticks[k]).Stop?
    requires forall j :: 0 <= j < k ==> TickFate(name, ticks[j]) == Continue
    ensures Poll(name, ticks).0 == TickFate(name, ticks[k]).end
    ensures Poll(name, ticks) == Poll(name, ticks[..k + 1])
  {
    var ps := Passes(name, ticks);
    forall j | 0 <= j < k ensures ps[j].fate == Continue {
      assert TickFate(name, ticks[j]) == Continue;
    }
    assert ps[k].fate == TickFate(name, ticks[k]);
    RunStopsAt(ps, 0, k);
    PassesPrefix(name, ticks, k + 1);
  }

  /** The passes of a prefix of the ticks are a prefix of the passes. */
  lemma PassesPrefix(name: string, ticks: seq<Tick>, n: nat)
    requires n <= |ticks|
    ensures Passes(name, ticks[..n]) == Passes(name, ticks)[..n]
  {
    var cut := ticks[..n];
    assert forall j :: 0 <= j < n ==> cut[j] == ticks[j];
  }

  /** The polling loop times out exactly when every pass goes on, and then
      it has run both commands on every pass. */
  lemma PollTimeoutIff(name: string, ticks: seq<Tick>)
    ensures Poll(name, ticks).0 == TimedOut <==> forall j :: 0 <= j < |ticks| ==> TickFate(name, ticks[j]) == Continue
    ensures Poll(name, ticks).0 == TimedOut ==> |Poll(name, ticks).1| == 2 * |ticks|
  {
    var ps := Passes(name, ticks);
    assert Poll(name, ticks) == Run(ps, 0);
    forall j | 0 <= j < |ps| ensures ps[j].fate != Stop(TimedOut) {
      TickFateNeverTimesOut(name, ticks[j]);
    }
    RunTimeoutIff(ps, 0);
    if Run(ps, 0).0 == TimedOut {
      forall j | 0 <= j < |ticks| ensures TickFate(name, ticks[j]) == Continue && |ps[j].ran| == 2 {
        assert ps[j].fate == Continue;
        ContinueRanBoth(name, ticks[j]);
      }
    } else {
      var j :| 0 <= j < |ps| && ps[j].fate != Continue;
      assert TickFate(name, ticks[j]) != Continue;
    }
  }

  /** When the polling loop does not time out, the first pass that stops
      gives its outcome. */
  lemma PollFirstStop(name: string, ticks: seq<Tick>)
    requires Poll(name, ticks).0 != TimedOut
    ensures exists k ::
      && 0 <= k < |ticks| && TickFate(name, ticks[k]) == Stop(Poll(name, ticks).0)
      && forall j :: 0 <= j < k ==> TickFate(name, ticks[j]) == Continue
  {
    var ps := Passes(name, ticks);
    assert Poll(name, ticks) == Run(ps, 0);
    RunFirstStop(ps, 0);
    var k :| && 0 <= k < |ps| && ps[k].fate == Stop(Run(ps, 0).0)
      && forall j :: 0 <= j < k ==> ps[j].fate == Continue;
    forall j | 0 <= j < k ensures TickFate(name, ticks[j]) == Continue {
      assert ps[j].fate == Continue;
    }
    assert TickFate(name, ticks[k]) == ps[k].fate;
  }

  /** The polling loop runs shell commands only. */
  lemma PollOnlyExecs(name: string, ticks: seq<Tick>)
    ensures forall a :: a in Poll(name, ticks).1 ==> a.Exec?
  {
    var ps := Passes(name, ticks);
    assert forall j, a :: 0 <= j < |ps| && a in ps[j].ran ==> a.Exec?;
    RunOnlyExecs(ps, 0);
  }

  /** Every exit after a successful download removes the RPM, once, as the
      last thing the call does; before it come the download, the query and
      only shell commands. */
  lemma RemovedOnceAtEnd(url: string, urlPath: string, env: InstallEnv)
    requires env.downloadOk
    ensures var trace := InstallSpec(url, urlPath, env).1;
      && |trace| >= 3
      && trace[0] == Download(url, ScratchFolder)
      && trace[1] == Query(QueryCmd(RpmPath(urlPath)))
      && trace[|trace| - 1] == Remove(RpmPath(urlPath))
      && forall k :: 2 <= k < |trace| - 1 ==> trace[k].Exec?
  {
    InstallingOnlyExecs(RpmName(urlPath), env.rpm, env.installUpdate, env.ticks);
    ExecsBetween(Download(url, ScratchFolder), Query(QueryCmd(RpmPath(urlPath))),
                 Installing(RpmName(urlPath), env.rpm, env.installUpdate, env.ticks).1, Remove(RpmPath(urlPath)));
  }

  /** Between the query and the removal the call runs shell commands only. */
  lemma InstallingOnlyExecs(rpmName: string, rpm: RpmReply, installUpdate: ShellReply, ticks: seq<Tick>)
    ensures forall a :: a in Installing(rpmName, rpm, installUpdate, ticks).1 ==> a.Exec?
  {
    if rpm.returncode == 0 && Processed(installUpdate).status == Success {
      PollOnlyExecs(RStrip(rpm.out), ticks);
    }
  }

  /** A trace of two leading actions, shell commands, and one final action. */
  lemma ExecsBetween(first: Action, second: Action, middle: seq<Action>, last: Action)
    requires forall a :: a in middle ==> a.Exec?
    ensures var trace := [first] + [second] + middle + [last];
      && |trace| >= 3 && trace[0] == first && trace[1] == second && trace[|trace| - 1] == last
      && forall k :: 2 <= k < |trace| - 1 ==> trace[k].Exec?
  {
    var trace := [first] + [second] + middle + [last];
    forall k | 2 <= k < |trace| - 1 ensures trace[k].Exec? {
      assert trace[k] == middle[k - 2];
    }
  }

  /** A failed removal changes nothing but the warning: the status, the
      output and the actions are those of a successful removal. */
  lemma RemovalFailureOnlyWarns(url: string, urlPath: string, env: InstallEnv)
    ensures var kept := InstallSpec(url, urlPath, env.(removeOk := true));
      var failed := InstallSpec(url, urlPath, env.(removeOk := false));
      && kept.0.warning == None
      && failed.1 == kept.1
      && failed.0 == if env.downloadOk
                     then kept.0.(warning := Some("failed to remove RPM from path: " + RpmPath(urlPath)))
                     else kept.0
  {
    var before := Installing(RpmName(urlPath), env.rpm, env.installUpdate, env.ticks).0;
    InstallingNoWarning(RpmName(urlPath), env.rpm, env.installUpdate, env.ticks);
    assert before.warning == None;
  }

  /** Before the cleanup no result carries a warning. */
  lemma InstallingNoWarning(rpmName: string, rpm: RpmReply, installUpdate: ShellReply, ticks: seq<Tick>)
    ensures Installing(rpmName, rpm, installUpdate, ticks).0.warning == None
  {
    if rpm.returncode == 0 && Processed(installUpdate).status == Success {
      var end := Poll(RStrip(rpm.out), ticks).0;
      assert Concluded(RStrip(rpm.out), end).warning == None;
    }
  }

  /** The call succeeds exactly when the download, the RPM query and
      `install update` succeed and some pass finds the counts equal after
      every earlier pass fetched both outputs with unequal counts. */
  lemma SuccessIff(url: string, urlPath: string, env: InstallEnv)
    ensures InstallSpec(url, urlPath, env).0.status == Success <==>
      && env.downloadOk && env.rpm.returncode == 0 && Processed(env.installUpdate).status == Success
      && exists k ::
        && 0 <= k < |env.ticks| && TickFate(RStrip(env.rpm.out), env.ticks[k]) == Stop(Installed)
        && forall j :: 0 <= j < k ==> TickFate(RStrip(env.rpm.out), env.ticks[j]) == Continue
  {
    InstallingSucceeds(RpmName(urlPath), env.rpm, env.installUpdate, env.ticks);
    InstalledIff(RStrip(env.rpm.out), env.ticks);
  }

  /** Between the query and the cleanup, success means the query and the
      update succeeded and the loop ended installed. */
  lemma InstallingSucceeds(rpmName: string, rpm: RpmReply, installUpdate: ShellReply, ticks: seq<Tick>)
    ensures Installing(rpmName, rpm, installUpdate, ticks).0.status == Success <==>
      rpm.returncode == 0 && Processed(installUpdate).status == Success && Poll(RStrip(rpm.out), ticks).0 == Installed
  {
  }

  /** The polling loop ends installed exactly when some pass finds the
      counts equal after every earlier pass went on. */
  lemma InstalledIff(name: string, ticks: seq<Tick>)
    ensures Poll(name, ticks).0 == Installed <==>
      exists k ::
        && 0 <= k < |ticks| && TickFate(name, ticks[k]) == Stop(Installed)
        && forall j :: 0 <= j < k ==> TickFate(name, ticks[j]) == Continue
  {
    if Poll(name, ticks).0 == Installed {
      PollFirstStop(name, ticks);
    }
    if exists k ::
      && 0 <= k < |ticks| && TickFate(name, ticks[k]) == Stop(Installed)
      && forall j :: 0 <= j < k ==> TickFate(name, ticks[j]) == Continue
    {
      var k :| && 0 <= k < |ticks| && TickFate(name, ticks[k]) == Stop(Installed)
        && forall j :: 0 <= j < k ==> TickFate(name, ticks[j]) == Continue;
      PollStopsAt(name, ticks, k);
    }
  }

  /** Counting strictly: when the package name occurs more often than there
      are nodes on every pass, for instance because it is part of the name
      of another active package, the call never succeeds and times out. */
  lemma OverCountTimesOut(url: string, urlPath: string, env: InstallEnv)
    requires env.downloadOk && env.rpm.returncode == 0 && Processed(env.installUpdate).status == Success
    requires forall j :: 0 <= j < |env.ticks| ==>
      && Processed(env.ticks[j].installActive).status == Success
      && Processed(env.ticks[j].platformVm).status == Success
      && Count(Join("", Items(Processed(env.ticks[j].installActive).output)), RStrip(env.rpm.out))
         > |DropFront(Items(Processed(env.ticks[j].platformVm).output), 2)|
    ensures InstallSpec(url, urlPath, env).0.status == Error
    ensures InstallSpec(url, urlPath, env).0.output == "Installation of " + RStrip(env.rpm.out) + " package timed out"
  {
    var name := RStrip(env.rpm.out);
    forall j | 0 <= j < |env.ticks| ensures TickFate(name, env.ticks[j]) == Continue {
      TickFateCases(name, env.ticks[j]);
    }
    PollTimeoutIff(name, env.ticks);
  }
}
