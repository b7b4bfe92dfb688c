/** `all_nodes_ready`: the chassis is ready when every line card and route
    processor listed by `show inventory` runs IOS XR according to
    `show platform`. */
module Readiness {
  import opened Wrappers
  import opened PyStr
  import opened XrCmd
  import opened InventoryJson

  /** The descriptions that mark an inventory entry as a node to wait for. */
  const NodeTypes: seq<string> := ["Line Card", "LC", "Route Processor", "Route Switch Processor"]

  const InventoryCmd: string := "show inventory | e PORT | i NAME:"
  const PlatformCmd: string := "show platform"

  /** The node state `show platform` must report. */
  const RunState: string := "IOS XR RUN"

  /** The exceptions the body of `all_nodes_ready` can raise and return. */
  datatype Exception = ValueError | KeyError(key: string) | IndexError

  /** The `output` entry: readiness, a message, or a caught exception. */
  datatype ReadyOutput = Flag(ready: bool) | Message(text: string) | Raised(e: Exception)

  datatype ReadyResult = ReadyResult(status: Status, output: ReadyOutput)

  datatype NodeState = Inactive | Active

  /** What one inventory line contributes. */
  datatype LineClass = Tracked(name: string) | Untracked | Unparsable(e: Exception)

  /** What the inventory loop ends with: the tracked node names, or the
      exception that stopped it. */
  datatype InventoryOutcome = Nodes(names: set<string>) | Raises(e: Exception)

  /** Some node type occurs in the description. */
  predicate IsNodeType(descr: string) {
    exists t :: t in NodeTypes && Contains(descr, t)
  }

  /** The description test, one type at a time. */
  lemma NodeTypeCases(descr: string)
    ensures IsNodeType(descr) <==>
      Contains(descr, "Line Card") || Contains(descr, "LC")
      || Contains(descr, "Route Processor") || Contains(descr, "Route Switch Processor")
  {
    if Contains(descr, "Line Card") { assert NodeTypes[0] == "Line Card"; }
    if Contains(descr, "LC") { assert NodeTypes[1] == "LC"; }
    if Contains(descr, "Route Processor") { assert NodeTypes[2] == "Route Processor"; }
    if Contains(descr, "Route Switch Processor") { assert NodeTypes[3] == "Route Switch Processor"; }
  }

  /** One inventory line: decoded after key quoting, then `DESCR` is read,
      and `NAME` only when the description names a node type. */
  function ClassifyLine(line: string): LineClass {
    match ParseObject(Quoted(line))
    case None => Unparsable(ValueError)
    case Some(obj) =>
      if "DESCR" !in obj then Unparsable(KeyError("DESCR"))
      else if !IsNodeType(obj["DESCR"]) then Untracked
      else if "NAME" !in obj then Unparsable(KeyError("NAME"))
      else Tracked(obj["NAME"])
  }

  /** A line as the device prints it is tracked exactly when its
      description names a node type, and then under its own name. */
  lemma ClassifyDeviceLine(name: string, descr: string)
    requires Plain(name) && Plain(descr)
    ensures ClassifyLine(InventoryLine(name, descr)) == if IsNodeType(descr) then Tracked(name) else Untracked
  {
    InventoryLineRoundTrip(name, descr);
  }

  /** Every line classified, in order. */
  function Classes(lines: seq<string>): (cs: seq<LineClass>)
    ensures |cs| == |lines|
  {
    seq(|lines|, i requires 0 <= i < |lines| => ClassifyLine(lines[i]))
  }

  /** The inventory loop over the classified lines, first line first. */
  function Inventory(cs: seq<LineClass>): InventoryOutcome
    decreases |cs|
  {
    if cs == [] then Nodes({})
    else
      match Inventory(cs[..|cs| - 1])
      case Raises(e) => Raises(e)
      case Nodes(names) =>
        match cs[|cs| - 1]
        case Unparsable(e) => Raises(e)
        case Untracked => Nodes(names)
        case Tracked(n) => Nodes(names + {n})
  }

  /** The loop succeeds exactly when every line can be classified, and then
      tracks exactly the names of the tracked lines. */
  lemma {:induction false} InventoryNodes(cs: seq<LineClass>)
    ensures Inventory(cs).Nodes? <==> forall i :: 0 <= i < |cs| ==> !cs[i].Unparsable?
    ensures Inventory(cs).Nodes? ==>
      forall n :: n in Inventory(cs).names <==> exists i :: 0 <= i < |cs| && cs[i] == Tracked(n)
    decreases |cs|
  {
    if cs != [] {
      var init := cs[..|cs| - 1];
      InventoryNodes(init);
      assert forall i :: 0 <= i < |init| ==> init[i] == cs[i];
      if Inventory(cs).Nodes? {
        forall n | exists i :: 0 <= i < |cs| && cs[i] == Tracked(n)
          ensures n in Inventory(cs).names
        {
          var i :| 0 <= i < |cs| && cs[i] == Tracked(n);
          if i < |init| {
            assert init[i] == Tracked(n);
          }
        }
      }
    }
  }

  /** The exception that stops the loop is the first line's that cannot be
      classified. */
  lemma {:induction false} InventoryFirstError(cs: seq<LineClass>)
    requires Inventory(cs).Raises?
    ensures exists i ::
      && 0 <= i < |cs| && cs[i] == Unparsable(Inventory(cs).e)
      && forall k :: 0 <= k < i ==> !cs[k].Unparsable?
    decreases |cs|
  {
    var init := cs[..|cs| - 1];
    assert forall i :: 0 <= i < |init| ==> init[i] == cs[i];
    if Inventory(init).Raises? {
      InventoryFirstError(init);
      var i :| 0 <= i < |init| && init[i] == Unparsable(Inventory(init).e)
        && forall k :: 0 <= k < i ==> !init[k].Unparsable?;
      assert cs[i] == Unparsable(Inventory(cs).e);
    } else {
      InventoryNodes(init);
      assert cs[|init|] == Unparsable(Inventory(cs).e);
    }
  }

  /** One more line: the loop goes on from where it was. */
  lemma InventoryStep(cs: seq<LineClass>, i: nat)
    requires i < |cs| && Inventory(cs[..i]).Nodes?
    ensures Inventory(cs[..i + 1]) == match cs[i]
      case Unparsable(e) => Raises(e)
      case Untracked => Inventory(cs[..i])
      case Tracked(n) => Nodes(Inventory(cs[..i]).names + {n})
  {
    assert cs[..i + 1][..i] == cs[..i];
  }

  /** Once the loop has raised, the lines after do not matter. */
  lemma {:induction false} InventoryRaisedStays(cs: seq<LineClass>, k: nat)
    requires k <= |cs| && Inventory(cs[..k]).Raises?
    ensures Inventory(cs) == Inventory(cs[..k])
    decreases |cs| - k
  {
    if k < |cs| {
      assert cs[..k + 1][..k] == cs[..k];
      InventoryRaisedStays(cs, k + 1);
    } else {
      assert cs[..k] == cs;
    }
  }

  /** `line.split()[0]` raises on this line. */
  predicate Blank(line: string) {
    Split(line) == []
  }

  predicate HasBlankBefore(lines: seq<string>, n: int) {
    exists i :: 0 <= i < n && i < |lines| && Blank(lines[i])
  }

  predicate HasBlank(lines: seq<string>) {
    HasBlankBefore(lines, |lines|)
  }

  /** The platform line shows `node`'s CPU running IOS XR: the first column
      names the node's CPU and the columns from the third on hold the state. */
  predicate RunsXr(node: string, line: string) {
    var w := Split(line);
    w != [] && Contains(w[0], node + "/CPU") && Contains(Join(" ", DropFront(w, 2)), RunState)
  }

  predicate RunningBefore(node: string, lines: seq<string>, n: int) {
    exists i :: 0 <= i < n && i < |lines| && RunsXr(node, lines[i])
  }

  predicate Running(node: string, lines: seq<string>) {
    RunningBefore(node, lines, |lines|)
  }

  /** What `all_nodes_ready` returns for the replies of its two commands. */
  function ReadySpec(inventory: ShellReply, platform: ShellReply): ReadyResult {
    var inv := Processed(inventory);
    if inv.status == Error then ReadyResult(Error, Message("Failed to get the output of show inventory"))
    else
      match Inventory(Classes(Items(inv.output)))
      case Raises(e) => ReadyResult(Error, Raised(e))
      case Nodes(names) =>
        var plat := Processed(platform);
        if plat.status == Error then ReadyResult(Error, Message("Failed to get the output of show platform"))
        else
          var lines := Items(plat.output);
          if names != {} && HasBlank(lines) then ReadyResult(Error, Raised(IndexError))
          else ReadyResult(Success, Flag(forall n :: n in names ==> Running(n, lines)))
  }

  /** The inner loop for one node: it raises at the first blank line, and
      otherwise finds whether some line shows the node running. */
  method ScanNode(node: string, lines: seq<string>) returns (raised: bool, running: bool)
    ensures raised <==> HasBlank(lines)
    ensures !raised ==> (running <==> Running(node, lines))
  {
    running := false;
    var i := 0;
    while i < |lines|
      invariant 0 <= i <= |lines|
      invariant !HasBlankBefore(lines, i)
      invariant running <==> RunningBefore(node, lines, i)
    {
      var words := Split(lines[i]);
      if words == [] {
        return true, running;
      }
      if Contains(words[0], node + "/CPU") {
        var xrState := Join(" ", DropFront(words, 2));
        if Contains(xrState, RunState) {
          running := true;
        }
      }
      i := i + 1;
    }
    raised := false;
  }

  /** The inventory loop: it fills the node table with every tracked name,
      inactive, or stops at the first line it cannot classify. */
  method ScanInventory(lines: seq<string>) returns (outcome: InventoryOutcome, table: map<string, NodeState>)
    ensures outcome == Inventory(Classes(lines))
    ensures outcome.Nodes? ==> table.Keys == outcome.names && forall n :: n in table ==> table[n] == Inactive
  {
    ghost var cs := Classes(lines);
    table := map[];
    var i := 0;
    while i < |lines|
      invariant 0 <= i <= |lines|
      invariant Inventory(cs[..i]) == Nodes(table.Keys)
      invariant forall n :: n in table ==> table[n] == Inactive
    {
      var c := ClassifyLine(lines[i]);
      assert c == cs[i];
      InventoryStep(cs, i);
      match c {
        case Unparsable(e) =>
          InventoryRaisedStays(cs, i + 1);
          return Raises(e), table;
        case Untracked =>
        case Tracked(name) =>
          assert table[name := Inactive].Keys == table.Keys + {name};
          table := table[name := Inactive];
      }
      i := i + 1;
    }
    assert cs[..i] == cs;
    outcome := Nodes(table.Keys);
  }

  /** The outer loop over the node table: each node found running on some
      platform line becomes active; a blank line raises as soon as any node
      is looked up. */
  method MarkRunning(table0: map<string, NodeState>, lines: seq<string>)
    returns (raised: bool, table: map<string, NodeState>)
    requires forall n :: n in table0 ==> table0[n] == Inactive
    ensures raised <==> table0 != map[] && HasBlank(lines)
    ensures !raised ==> table.Keys == table0.Keys
    ensures !raised ==> forall n :: n in table ==> (table[n] == Active <==> Running(n, lines))
  {
    table := table0;
    var todo := table.Keys;
    while todo != {}
      invariant todo <= table.Keys == table0.Keys
      invariant todo != table.Keys ==> !HasBlank(lines)
      invariant forall n :: n in table ==> (table[n] == Active <==> n !in todo && Running(n, lines))
      decreases |todo|
    {
      var node :| node in todo;
      var blank, running := ScanNode(node, lines);
      if blank {
        return true, table;
      }
      if running {
        table := table[node := Active];
      }
      todo := todo - {node};
    }
    raised := table0 != map[] && HasBlank(lines);
  }

  /** The shell lines `all_nodes_ready` runs: `show platform` only once the
      inventory has been read without error. */
  function IssuedSpec(inventory: ShellReply): seq<string> {
    var inv := Processed(inventory);
    [ExecShellLine(InventoryCmd, "")]
      + if inv.status == Success && Inventory(Classes(Items(inv.output))).Nodes?
        then [ExecShellLine(PlatformCmd, "")] else []
  }

  /** `all_nodes_ready()`: `issued` lists the shell lines run, in order. */
  method AllNodesReady(inventory: ShellReply, platform: ShellReply) returns (r: ReadyResult, issued: seq<string>)
    ensures r == ReadySpec(inventory, platform)
    ensures issued == IssuedSpec(inventory)
  {
    var showInventory, invLine := RunXrCmd(ExecCmd(InventoryCmd, None), inventory);
    issued := [invLine.value];
    if showInventory.status == Error {
      return ReadyResult(Error, Message("Failed to get the output of show inventory")), issued;
    }
    var outcome, table := ScanInventory(Items(showInventory.output));
    if outcome.Raises? {
      return ReadyResult(Error, Raised(outcome.e)), issued;
    }
    var showPlatform, platLine := RunXrCmd(ExecCmd(PlatformCmd, None), platform);
    issued := issued + [platLine.value];
    if showPlatform.status == Error {
      return ReadyResult(Error, Message("Failed to get the output of show platform")), issued;
    }
    var raised;
    raised, table := MarkRunning(table, Items(showPlatform.output));
    if raised {
      return ReadyResult(Error, Raised(IndexError)), issued;
    }
    r := ReadyResult(Success, Flag(forall n :: n in table ==> table[n] == Active));
  }

  // ---- What the result means ----

  /** The whole check succeeds with `true` exactly when both commands
      succeed, every inventory line is understood, and every tracked node
      has a platform line showing it running; with no tracked node at all
      the chassis counts as ready. */
  lemma ReadyMeans(inventory: ShellReply, platform: ShellReply)
    requires Processed(inventory).status == Success && Processed(platform).status == Success
    requires var cs := Classes(Items(Processed(inventory).output));
      forall i :: 0 <= i < |cs| ==> !cs[i].Unparsable?
    ensures var cs := Classes(Items(Processed(inventory).output));
      var plat := Items(Processed(platform).output);
      ReadySpec(inventory, platform)
        == ReadyResult(Success, Flag(forall i, n :: 0 <= i < |cs| && cs[i] == Tracked(n) ==> Running(n, plat)))
  {
    var cs := Classes(Items(Processed(inventory).output));
    NoBlankLines(platform);
    AllTrackedRunning(cs, Items(Processed(platform).output));
  }

  /** The error exits: a failed inventory command ends the check before
      `show platform` is issued; so does any inventory line that cannot be
      read, even after lines that could; a failed platform command gives
      its own message. */
  lemma ReadyErrors(inventory: ShellReply, platform: ShellReply)
    ensures Processed(inventory).status == Error ==>
      ReadySpec(inventory, platform) == ReadyResult(Error, Message("Failed to get the output of show inventory"))
      && IssuedSpec(inventory) == [ExecShellLine(InventoryCmd, "")]
    ensures Processed(inventory).status == Success ==>
      var cs := Classes(Items(Processed(inventory).output));
      (exists i :: 0 <= i < |cs| && cs[i].Unparsable?) ==>
        ReadySpec(inventory, platform).status == Error && ReadySpec(inventory, platform).output.Raised?
        && IssuedSpec(inventory) == [ExecShellLine(InventoryCmd, "")]
    ensures Processed(inventory).status == Success && Processed(platform).status == Error ==>
      var cs := Classes(Items(Processed(inventory).output));
      (forall i :: 0 <= i < |cs| ==> !cs[i].Unparsable?) ==>
        ReadySpec(inventory, platform) == ReadyResult(Error, Message("Failed to get the output of show platform"))
        && |IssuedSpec(inventory)| == 2
  {
    if Processed(inventory).status == Success {
      InventoryNodes(Classes(Items(Processed(inventory).output)));
    }
  }

  /** With no line card or route processor in the inventory the chassis is
      ready, whatever `show platform` says. */
  lemma ReadyVacuous(inventory: ShellReply, platform: ShellReply)
    requires Processed(inventory).status == Success && Processed(platform).status == Success
    requires var cs := Classes(Items(Processed(inventory).output));
      forall i :: 0 <= i < |cs| ==> cs[i] == Untracked
    ensures ReadySpec(inventory, platform) == ReadyResult(Success, Flag(true))
  {
    var cs := Classes(Items(Processed(inventory).output));
    InventoryNodes(cs);
    assert Inventory(cs).names == {};
  }

  /** Every tracked name runs exactly when every tracked line's node runs. */
  lemma AllTrackedRunning(cs: seq<LineClass>, plat: seq<string>)
    requires forall i :: 0 <= i < |cs| ==> !cs[i].Unparsable?
    ensures Inventory(cs).Nodes?
    ensures (forall n :: n in Inventory(cs).names ==> Running(n, plat)) <==>
      forall i, n :: 0 <= i < |cs| && cs[i] == Tracked(n) ==> Running(n, plat)
  {
    InventoryNodes(cs);
    var names := Inventory(cs).names;
    if forall i, n :: 0 <= i < |cs| && cs[i] == Tracked(n) ==> Running(n, plat) {
      forall n | n in names ensures Running(n, plat) {
        var i :| 0 <= i < |cs| && cs[i] == Tracked(n);
      }
    }
  }

  /** A successful `xrcmd` output never holds a blank line, so the
      `IndexError` branch is unreachable with real command output. */
  lemma NoBlankLines(reply: ShellReply)
    requires Processed(reply).status == Success
    ensures !HasBlank(Items(Processed(reply).output))
  {
    var out := Processed(reply).output;
    if out.Text? {
      assert reply.lines == [];
    } else {
      forall i | 0 <= i < |out.lines| ensures !Blank(out.lines[i]) {
        ProcessedLinesStripped(reply, i);
        assert !AllSpace(out.lines[i]);
      }
    }
  }

  /** Hence `all_nodes_ready` never returns an `IndexError`. */
  lemma NeverIndexError(inventory: ShellReply, platform: ShellReply)
    ensures ReadySpec(inventory, platform).output != Raised(IndexError)
  {
    if Processed(inventory).status == Success && Processed(platform).status == Success {
      NoBlankLines(platform);
    }
    if Processed(inventory).status == Success && Inventory(Classes(Items(Processed(inventory).output))).Raises? {
      InventoryFirstError(Classes(Items(Processed(inventory).output)));
    }
  }
}
