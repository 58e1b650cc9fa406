/** The operation runner of pkg/monobrew/runner.go: every stored block is run
    in order under a counter that only grows, its state is written to three
    files in the state directory, and a failing block marked halt-if-fail
    stops the run. The files written are kept as a log of writes; the JSON
    encoding of a block is a parameter. */
module Running {
  import opened Maybe
  import opened Text
  import opened Configuration
  import opened Process
  import opened Scanning

  /** One file written to the state directory. */
  datatype FileWrite = FileWrite(file: string, body: string)

  /** How a run ends: every block ran, a failing halt-if-fail block stopped
      it (the program exits with status 1), or writing a state file failed
      (the program panics). The index is the block the run stopped at. */
  datatype RunEnd = Completed | Halted(index: nat) | WriteFailed(index: nat, file: string)

  /** `%s/%05d.%s.%s`: the state file of one operation. */
  function StateFileName(stateDir: string, counter: nat, opLabel: string, suffix: string): string
  {
    stateDir + "/" + Padded5(counter) + "." + opLabel + "." + suffix
  }

  /** The three writes DumpState makes, in order: the output, the exit code in
      decimal, and the JSON record (taken after the output file name is
      recorded in the block) followed by a newline. */
  function DumpWrites(stateDir: string, op: Block, marshal: Block -> string): (ws: seq<FileWrite>)
    ensures |ws| == 3
  {
    var out := StateFileName(stateDir, op.opCounter, op.opLabel, "output");
    [ FileWrite(out, op.stdouterr),
      FileWrite(StateFileName(stateDir, op.opCounter, op.opLabel, "exitcode"), IntToDecimal(op.exitCode)),
      FileWrite(StateFileName(stateDir, op.opCounter, op.opLabel, "run.json"),
                marshal(op.(stdouterrFile := out)) + "\n") ]
  }

  /** A run of digits followed by a dot is fixed by the text around it: the
      first dot after pre ends it. */
  lemma DigitsBeforeDot(pre: string, p1: string, x: string, p2: string, y: string)
    requires AllDigits(p1) && AllDigits(p2)
    requires pre + p1 + "." + x == pre + p2 + "." + y
    ensures p1 == p2
  {
    var n1, n2 := pre + p1 + "." + x, pre + p2 + "." + y;
    assert n1[|pre| + |p1|] == '.' && n2[|pre| + |p2|] == '.';
    assert p1 == n1[|pre|..|pre| + |p1|] == n2[|pre|..|pre| + |p2|] == p2;
  }

  /** Two state file names in one directory that are equal have the same
      counter, and for one counter and label the same suffix: operations
      never share a state file, and the three files of one operation are
      distinct. */
  lemma StateFileNamesDistinct(stateDir: string, c1: nat, l1: string, s1: string,
                               c2: nat, l2: string, s2: string)
    requires StateFileName(stateDir, c1, l1, s1) == StateFileName(stateDir, c2, l2, s2)
    ensures c1 == c2
    ensures l1 == l2 ==> s1 == s2
  {
    var p1, p2 := Padded5(c1), Padded5(c2);
    assert StateFileName(stateDir, c1, l1, s1) == (stateDir + "/") + p1 + "." + (l1 + "." + s1);
    assert StateFileName(stateDir, c2, l2, s2) == (stateDir + "/") + p2 + "." + (l2 + "." + s2);
    DigitsBeforeDot(stateDir + "/", p1, l1 + "." + s1, p2, l2 + "." + s2);
    if l1 == l2 {
      var pre := stateDir + "/" + p1 + "." + l1 + ".";
      assert StateFileName(stateDir, c1, l1, s1) == pre + s1;
      assert StateFileName(stateDir, c2, l2, s2) == pre + s2;
      assert s1 == (pre + s1)[|pre|..];
      assert s2 == (pre + s2)[|pre|..];
    }
  }

  /** How many of the writes succeed before the first that fails. */
  function Performed(ws: seq<FileWrite>, canWrite: string -> bool): (k: nat)
    ensures k <= |ws|
    ensures forall i :: 0 <= i < k ==> canWrite(ws[i].file)
    ensures k < |ws| ==> !canWrite(ws[k].file)
  {
    if ws == [] || !canWrite(ws[0].file) then 0 else 1 + Performed(ws[1..], canWrite)
  }

  /** What DumpState leaves: the block (with its output file recorded once
      that file is written), the files written, and the first file that
      could not be written, if any. */
  datatype Dumped = Dumped(op: Block, written: seq<FileWrite>, failed: Option<string>)

  function Dump(stateDir: string, op: Block, canWrite: string -> bool, marshal: Block -> string): (d: Dumped)
    ensures d.failed.None? ==> d.written == DumpWrites(stateDir, op, marshal)
    ensures d.failed.None? ==>
      d.op == op.(stdouterrFile := StateFileName(stateDir, op.opCounter, op.opLabel, "output"))
    ensures d.failed.Some? ==> exists k :: 0 <= k < 3 && d.failed.value == DumpWrites(stateDir, op, marshal)[k].file
                                           && !canWrite(d.failed.value)
    ensures d.written <= DumpWrites(stateDir, op, marshal)
    ensures d.failed.Some? ==> |d.written| < 3
  {
    var ws := DumpWrites(stateDir, op, marshal);
    var k := Performed(ws, canWrite);
    var op' := if k >= 1 then op.(stdouterrFile := ws[0].file) else op;
    Dumped(op', ws[..k], if k < 3 then Some(ws[k].file) else None)
  }

  /** The four ways Dump can end: at the first, second or third write, or
      with all three written. */
  lemma DumpOutcomes(stateDir: string, op: Block, canWrite: string -> bool, marshal: Block -> string)
    ensures var ws := DumpWrites(stateDir, op, marshal);
      !canWrite(ws[0].file) ==> Dump(stateDir, op, canWrite, marshal) == Dumped(op, [], Some(ws[0].file))
    ensures var ws := DumpWrites(stateDir, op, marshal);
      canWrite(ws[0].file) && !canWrite(ws[1].file) ==>
        Dump(stateDir, op, canWrite, marshal) == Dumped(op.(stdouterrFile := ws[0].file), [ws[0]], Some(ws[1].file))
    ensures var ws := DumpWrites(stateDir, op, marshal);
      canWrite(ws[0].file) && canWrite(ws[1].file) && !canWrite(ws[2].file) ==>
        Dump(stateDir, op, canWrite, marshal)
        == Dumped(op.(stdouterrFile := ws[0].file), [ws[0], ws[1]], Some(ws[2].file))
    ensures var ws := DumpWrites(stateDir, op, marshal);
      canWrite(ws[0].file) && canWrite(ws[1].file) && canWrite(ws[2].file) ==>
        Dump(stateDir, op, canWrite, marshal) == Dumped(op.(stdouterrFile := ws[0].file), ws, None)
  {
    var ws := DumpWrites(stateDir, op, marshal);
    if canWrite(ws[0].file) {
      assert Performed(ws, canWrite) == 1 + Performed(ws[1..], canWrite);
      if canWrite(ws[1].file) {
        assert Performed(ws[1..], canWrite) == 1 + Performed(ws[1..][1..], canWrite);
        if canWrite(ws[2].file) {
          assert Performed(ws[1..][1..], canWrite) == 1 + Performed(ws[1..][1..][1..], canWrite);
          assert ws[..3] == ws;
        } else {
          assert ws[..2] == [ws[0], ws[1]];
        }
      } else {
        assert ws[..1] == [ws[0]];
      }
    }
  }

  /** A block that stops the run once it has run. */
  predicate Halts(b: Block)
  {
    b.haltIfFail && !b.success
  }

  /** The index one past the last block that ran. */
  function Stop(end: RunEnd, n: nat): nat
  {
    match end
    case Completed => n
    case Halted(k) => k + 1
    case WriteFailed(k, _) => k + 1
  }

  /** One pass of the RunOps loop body for block b numbered c: the block is
      run in the world of c and its state dumped. */
  function RunOne(stateDir: string, world: nat -> Env, marshal: Block -> string, b: Block, c: nat): (d: Dumped)
    ensures d.op.opCounter == c && d.op.opLabel == b.opLabel && d.op.haltIfFail == b.haltIfFail
    ensures d.failed.None? ==> d.written == DumpWrites(stateDir, d.op, marshal)
    ensures d.failed.Some? ==> d.written < DumpWrites(stateDir, d.op, marshal)
  {
    var op := Executed(b.(opCounter := c), world(c));
    var d := Dump(stateDir, op, world(c).canWrite, marshal);
    assert DumpWrites(stateDir, d.op, marshal) == DumpWrites(stateDir, op, marshal);
    d
  }

  /** The state RunOps leaves: the blocks, the counter, the files written
      and how the run ended. */
  datatype RunState = RunState(blocks: seq<Block>, counter: nat, files: seq<FileWrite>, end: RunEnd)

  /** The loop body as a value: what running block b under number c gives. */
  type Step = (Block, nat) -> Dumped

  /** The step RunOps takes: RunOne in the given state directory and worlds. */
  function Stepper(stateDir: string, world: nat -> Env, marshal: Block -> string): Step
  {
    (b: Block, c: nat) => RunOne(stateDir, world, marshal, b, c)
  }

  /** A step carries the number it was given and keeps the label and the
      halt-if-fail flag of the block, whatever the block. */
  ghost predicate StepNumbers(step: Step)
  {
    forall b: Block, c: nat ::
      step(b, c).op.opCounter == c && step(b, c).op.opLabel == b.opLabel
      && step(b, c).op.haltIfFail == b.haltIfFail
  }

  /** The files written for one block, as a value. */
  type Writer = Block -> seq<FileWrite>

  /** The files DumpState writes for a block. */
  function StateWriter(stateDir: string, marshal: Block -> string): Writer
  {
    b => DumpWrites(stateDir, b, marshal)
  }

  /** A step that no write failed in wrote the files writes gives for the
      block it returns; a step whose write failed wrote only a strict prefix
      of them. */
  ghost predicate StepWrites(step: Step, writes: Writer)
  {
    forall b: Block, c: nat ::
      && (step(b, c).failed.None? ==> step(b, c).written == writes(step(b, c).op))
      && (step(b, c).failed.Some? ==> step(b, c).written < writes(step(b, c).op))
  }

  /** The step RunOps takes has both properties. */
  lemma StepperKeeps(stateDir: string, world: nat -> Env, marshal: Block -> string)
    ensures StepNumbers(Stepper(stateDir, world, marshal))
    ensures StepWrites(Stepper(stateDir, world, marshal), StateWriter(stateDir, marshal))
  {
  }

  /** The RunOps loop from block i on, with the counter and the files written
      so far; step is the loop body. The block list keeps its length, the run
      stops at or after i, and files are only ever added. */
  function RunFrom(step: Step, blocks: seq<Block>, i: nat, counter: nat, files: seq<FileWrite>): (r: RunState)
    requires i <= |blocks|
    ensures |r.blocks| == |blocks| && i <= Stop(r.end, |blocks|) <= |blocks|
    ensures r.end.Completed? || i <= Stop(r.end, |blocks|) - 1
    ensures files <= r.files
    decreases |blocks| - i
  {
    if i == |blocks| then RunState(blocks, counter, files, Completed)
    else
      var c := counter + 1;
      var d := step(blocks[i], c);
      var bs := blocks[i := d.op];
      if d.failed.Some? then RunState(bs, c, files + d.written, WriteFailed(i, d.failed.value))
      else if Halts(d.op) then RunState(bs, c, files + d.written, Halted(i))
      else RunFrom(step, bs, i + 1, c, files + d.written)
  }

  /** One turn of the loop: block i is run under the next number, and the
      run stops there or goes on from block i + 1. */
  lemma RunFromStep(step: Step, blocks: seq<Block>, i: nat, counter: nat, files: seq<FileWrite>)
    requires i < |blocks|
    ensures var d, r := step(blocks[i], counter + 1), RunFrom(step, blocks, i, counter, files);
      d.failed.Some? ==> r == RunState(blocks[i := d.op], counter + 1, files + d.written, WriteFailed(i, d.failed.value))
    ensures var d, r := step(blocks[i], counter + 1), RunFrom(step, blocks, i, counter, files);
      d.failed.None? && Halts(d.op) ==> r == RunState(blocks[i := d.op], counter + 1, files + d.written, Halted(i))
    ensures var d, r := step(blocks[i], counter + 1), RunFrom(step, blocks, i, counter, files);
      d.failed.None? && !Halts(d.op) ==> r == RunFrom(step, blocks[i := d.op], i + 1, counter + 1, files + d.written)
  {
  }

  /** The writes of each block in turn. */
  function WritesOf(writes: Writer, bs: seq<Block>): seq<FileWrite>
  {
    if bs == [] then [] else writes(bs[0]) + WritesOf(writes, bs[1..])
  }

  /** The writes from block i on are those of block i, then those after it. */
  lemma WritesOfFrom(writes: Writer, bs: seq<Block>, i: nat)
    requires i < |bs|
    ensures WritesOf(writes, bs[i..]) == writes(bs[i]) + WritesOf(writes, bs[i + 1..])
  {
    assert bs[i..][1..] == bs[i + 1..];
  }

  /** The writes of blocks i to k - 1 are those of block i, then those of the others. */
  lemma WritesOfRange(writes: Writer, bs: seq<Block>, i: nat, k: nat)
    requires i < k <= |bs|
    ensures WritesOf(writes, bs[i..k]) == writes(bs[i]) + WritesOf(writes, bs[i + 1..k])
  {
    assert bs[i..k][1..] == bs[i + 1..k];
  }

  /** The writes of block i alone. */
  lemma WritesOfOne(writes: Writer, bs: seq<Block>, i: nat)
    requires i < |bs|
    ensures WritesOf(writes, bs[i..i + 1]) == writes(bs[i])
  {
    assert bs[i..i + 1] == [bs[i]];
    assert WritesOf(writes, [bs[i]]) == writes(bs[i]) + WritesOf(writes, []);
  }

  /** Files written before block i's own writes, then those of blocks i + 1 to k - 1. */
  lemma WritesPrepend(writes: Writer, bs: seq<Block>, i: nat, k: nat,
                      files: seq<FileWrite>, w: seq<FileWrite>)
    requires i < k <= |bs| && w == writes(bs[i])
    ensures files + WritesOf(writes, bs[i..k]) == (files + w) + WritesOf(writes, bs[i + 1..k])
  {
    WritesOfRange(writes, bs, i, k);
  }

  /** DumpState writes three files per block. */
  lemma {:induction false} StateWritesCount(stateDir: string, marshal: Block -> string, bs: seq<Block>)
    ensures |WritesOf(StateWriter(stateDir, marshal), bs)| == 3 * |bs|
  {
    if bs != [] {
      StateWritesCount(stateDir, marshal, bs[1..]);
    }
  }

  class Runner {
    const config: Config
    /** The counter of operations run; RunOps never resets it. */
    var opCounter: nat
    /** The state files written, in order. */
    var files: seq<FileWrite>

    /** NewRunner. */
    constructor (config: Config)
      ensures this.config == config && opCounter == 0 && files == []
    {
      this.config := config;
      opCounter := 0;
      files := [];
    }

    /** os.WriteFile of one state file; false is the error that makes the
        source panic. */
    method WriteFile(w: FileWrite, canWrite: string -> bool) returns (ok: bool)
      modifies this
      ensures ok == canWrite(w.file)
      ensures files == if ok then old(files) + [w] else old(files)
      ensures opCounter == old(opCounter)
    {
      ok := canWrite(w.file);
      if ok {
        files := files + [w];
      }
    }

    /** DumpState: the three state files of op, stopping at the first write
        that fails. */
    method DumpState(op: Block, canWrite: string -> bool, marshal: Block -> string) returns (d: Dumped)
      modifies this
      ensures d == Dump(config.stateDir, op, canWrite, marshal)
      ensures files == old(files) + d.written && opCounter == old(opCounter)
    {
      DumpOutcomes(config.stateDir, op, canWrite, marshal);
      var block := op;
      var written: seq<FileWrite> := [];
      var file := StateFileName(config.stateDir, block.opCounter, block.opLabel, "output");
      var w := FileWrite(file, block.stdouterr);
      var ok := WriteFile(w, canWrite);
      if !ok {
        return Dumped(block, written, Some(file));
      }
      written := written + [w];
      block := block.(stdouterrFile := file);
      var exitFile := StateFileName(config.stateDir, block.opCounter, block.opLabel, "exitcode");
      w := FileWrite(exitFile, IntToDecimal(block.exitCode));
      ok := WriteFile(w, canWrite);
      if !ok {
        return Dumped(block, written, Some(exitFile));
      }
      written := written + [w];
      var runFile := StateFileName(config.stateDir, block.opCounter, block.opLabel, "run.json");
      w := FileWrite(runFile, marshal(block) + "\n");
      ok := WriteFile(w, canWrite);
      if !ok {
        return Dumped(block, written, Some(runFile));
      }
      written := written + [w];
      return Dumped(block, written, None);
    }

    /** UpdateStatus: one variable inserted or overwritten. */
    method UpdateStatus(key: string, value: string)
      modifies config
      ensures config.status == old(config.status)[key := value]
      ensures config.stateDir == old(config.stateDir) && config.configFiles == old(config.configFiles)
      ensures config.configExpanded == old(config.configExpanded) && config.blocks == old(config.blocks)
      ensures config.printVerboseResult == old(config.printVerboseResult)
    {
      config.SetStatusKey(key, value);
    }

    /** One `if strings.Contains` block of ScanEtcIssue: the four writes of
        check c, in order, when its marker occurs in text. */
    method RunCheck(text: string, c: Check)
      modifies config
      ensures config.status == ApplyCheck(old(config.status), text, c)
      ensures config.stateDir == old(config.stateDir) && config.configFiles == old(config.configFiles)
      ensures config.configExpanded == old(config.configExpanded) && config.blocks == old(config.blocks)
      ensures config.printVerboseResult == old(config.printVerboseResult)
    {
      if Contains(text, c.marker) {
        UpdateStatus(AptKey, "1");
        UpdateStatus(c.distroKey, "1");
        UpdateStatus(c.releaseKey, "1");
        UpdateStatus(c.versionKey, c.version);
      }
    }

    /** ScanEtcIssue: nothing when the file does not exist; otherwise every
        check in turn on its text, which is empty when it cannot be read. */
    method ScanEtcIssue(issue: IssueFile)
      modifies config
      ensures config.status == ScannedStatus(old(config.status), issue)
      ensures config.stateDir == old(config.stateDir) && config.configFiles == old(config.configFiles)
      ensures config.configExpanded == old(config.configExpanded) && config.blocks == old(config.blocks)
      ensures config.printVerboseResult == old(config.printVerboseResult)
    {
      if issue.Missing? {
        return;
      }
      var text := if issue.Readable? then issue.text else "";
      ghost var s0 := config.status;
      assert Checks[..0] == [];
      RunCheck(text, Checks[0]);
      ApplyChecksPrefix(s0, text, Checks, 0);
      RunCheck(text, Checks[1]);
      ApplyChecksPrefix(s0, text, Checks, 1);
      RunCheck(text, Checks[2]);
      ApplyChecksPrefix(s0, text, Checks, 2);
      RunCheck(text, Checks[3]);
      ApplyChecksPrefix(s0, text, Checks, 3);
      RunCheck(text, Checks[4]);
      ApplyChecksPrefix(s0, text, Checks, 4);
      RunCheck(text, Checks[5]);
      ApplyChecksPrefix(s0, text, Checks, 5);
      RunCheck(text, Checks[6]);
      ApplyChecksPrefix(s0, text, Checks, 6);
      RunCheck(text, Checks[7]);
      ApplyChecksPrefix(s0, text, Checks, 7);
      RunCheck(text, Checks[8]);
      ApplyChecksPrefix(s0, text, Checks, 8);
      assert Checks[..9] == Checks;
    }

    /** Scan: the /etc/issue scan is the only one. */
    method Scan(issue: IssueFile)
      modifies config
      ensures config.status == ScannedStatus(old(config.status), issue)
      ensures config.stateDir == old(config.stateDir) && config.configFiles == old(config.configFiles)
      ensures config.configExpanded == old(config.configExpanded) && config.blocks == old(config.blocks)
      ensures config.printVerboseResult == old(config.printVerboseResult)
    {
      ScanEtcIssue(issue);
    }

    /** RunOps: each block in order gets the next counter value, runs, and has
        its state dumped; the run stops after a failing halt-if-fail block or
        a failed write. */
    method RunOps(world: nat -> Env, marshal: Block -> string) returns (end: RunEnd)
      modifies this, config
      ensures RunState(config.blocks, opCounter, files, end)
           == RunFrom(Stepper(old(config.stateDir), world, marshal), old(config.blocks), 0, old(opCounter), old(files))
      ensures config.stateDir == old(config.stateDir) && config.status == old(config.status)
      ensures config.configFiles == old(config.configFiles) && config.configExpanded == old(config.configExpanded)
      ensures config.printVerboseResult == old(config.printVerboseResult)
    {
      ghost var step := Stepper(config.stateDir, world, marshal);
      ghost var goal := RunFrom(step, config.blocks, 0, opCounter, files);
      var ops := config.OrderedOps();
      var i := 0;
      while i < |ops|
        invariant 0 <= i <= |ops| == |config.blocks|
        invariant config.stateDir == old(config.stateDir) && config.status == old(config.status)
        invariant config.configFiles == old(config.configFiles) && config.configExpanded == old(config.configExpanded)
        invariant config.printVerboseResult == old(config.printVerboseResult)
        invariant goal == RunFrom(step, config.blocks, i, opCounter, files)
      {
        RunFromStep(step, config.blocks, i, opCounter, files);
        var d := RunBlock(i, world, marshal);
        if d.failed.Some? {
          return WriteFailed(i, d.failed.value);
        }
        if d.op.haltIfFail && !d.op.success {
          return Halted(i);
        }
        i := i + 1;
      }
      return Completed;
    }

    /** The first part of the RunOps loop body: block i gets the next number,
        runs, and has its state dumped. */
    method RunBlock(i: nat, world: nat -> Env, marshal: Block -> string) returns (d: Dumped)
      requires i < |config.blocks|
      modifies this, config
      ensures opCounter == old(opCounter) + 1
      ensures d == Stepper(config.stateDir, world, marshal)(old(config.blocks)[i], opCounter)
      ensures config.blocks == old(config.blocks)[i := d.op] && files == old(files) + d.written
      ensures config.stateDir == old(config.stateDir) && config.status == old(config.status)
      ensures config.configFiles == old(config.configFiles) && config.configExpanded == old(config.configExpanded)
      ensures config.printVerboseResult == old(config.printVerboseResult)
    {
      opCounter := opCounter + 1;
      var op := config.blocks[i].(opCounter := opCounter);
      var env := world(opCounter);
      op := ExecuteOp(op, env);
      d := DumpState(op, env.canWrite, marshal);
      config.blocks := config.blocks[i := d.op];
    }
  }

  // ---- lemmas ----

  /** The counter goes up by one per block run, and each block run carries
      the counter value it was given. */
  lemma {:induction false} RunCounters(step: Step, blocks: seq<Block>, i: nat, counter: nat,
                                       files: seq<FileWrite>)
    requires i <= |blocks|
    requires StepNumbers(step)
    ensures var r := RunFrom(step, blocks, i, counter, files);
      r.counter == counter + (Stop(r.end, |blocks|) - i)
    ensures var r := RunFrom(step, blocks, i, counter, files);
      forall j :: i <= j < Stop(r.end, |blocks|) ==> r.blocks[j].opCounter == counter + 1 + (j - i)
    decreases |blocks| - i
  {
    if i < |blocks| {
      var c := counter + 1;
      var d := step(blocks[i], c);
      var bs := blocks[i := d.op];
      if d.failed.None? && !Halts(d.op) {
        RunCounters(step, bs, i + 1, c, files + d.written);
        RunKeepsPrefix(step, bs, i + 1, c, files + d.written);
      }
    }
  }

  /** Blocks before i are left as they were. */
  lemma {:induction false} RunKeepsPrefix(step: Step, blocks: seq<Block>, i: nat, counter: nat,
                                          files: seq<FileWrite>)
    requires i <= |blocks|
    ensures var r := RunFrom(step, blocks, i, counter, files);
      forall j :: 0 <= j < i ==> r.blocks[j] == blocks[j]
    decreases |blocks| - i
  {
    if i < |blocks| {
      var c := counter + 1;
      var d := step(blocks[i], c);
      var bs := blocks[i := d.op];
      if d.failed.None? && !Halts(d.op) {
        RunKeepsPrefix(step, bs, i + 1, c, files + d.written);
      }
    }
  }

  /** Blocks after the one the run stopped at are left as they were. */
  lemma {:induction false} RunKeepsSuffix(step: Step, blocks: seq<Block>, i: nat, counter: nat,
                                          files: seq<FileWrite>)
    requires i <= |blocks|
    ensures var r := RunFrom(step, blocks, i, counter, files);
      forall j :: Stop(r.end, |blocks|) <= j < |blocks| ==> r.blocks[j] == blocks[j]
    decreases |blocks| - i
  {
    var r := RunFrom(step, blocks, i, counter, files);
    if i < |blocks| {
      var c := counter + 1;
      var d := step(blocks[i], c);
      var bs := blocks[i := d.op];
      if d.failed.None? && !Halts(d.op) {
        var r' := RunFrom(step, bs, i + 1, c, files + d.written);
        assert r == r';
        RunKeepsSuffix(step, bs, i + 1, c, files + d.written);
        forall j | Stop(r.end, |blocks|) <= j < |blocks|
          ensures r.blocks[j] == blocks[j]
        {
          assert r'.blocks[j] == bs[j];
        }
      } else {
        assert r.blocks == bs && Stop(r.end, |blocks|) == i + 1;
      }
    }
  }

  /** No block changes its label or its halt-if-fail flag by running. */
  lemma {:induction false} RunKeepsLabels(step: Step, blocks: seq<Block>, i: nat, counter: nat,
                                          files: seq<FileWrite>)
    requires i <= |blocks|
    requires StepNumbers(step)
    ensures var r := RunFrom(step, blocks, i, counter, files);
      forall j :: 0 <= j < |blocks| ==>
        r.blocks[j].opLabel == blocks[j].opLabel && r.blocks[j].haltIfFail == blocks[j].haltIfFail
    decreases |blocks| - i
  {
    if i < |blocks| {
      var c := counter + 1;
      var d := step(blocks[i], c);
      var bs := blocks[i := d.op];
      if d.failed.None? && !Halts(d.op) {
        assert RunFrom(step, blocks, i, counter, files)
            == RunFrom(step, bs, i + 1, c, files + d.written);
        RunKeepsLabels(step, bs, i + 1, c, files + d.written);
      }
    }
  }

  /** The run halts exactly at the first block that fails with halt-if-fail
      set: every earlier block ran without halting, whatever its result. */
  lemma {:induction false} RunHalts(step: Step, blocks: seq<Block>, i: nat, counter: nat,
                                    files: seq<FileWrite>)
    requires i <= |blocks|
    ensures var r := RunFrom(step, blocks, i, counter, files);
      r.end.Halted? ==> Halts(r.blocks[r.end.index])
    ensures var r := RunFrom(step, blocks, i, counter, files);
      forall j :: i <= j < Stop(r.end, |blocks|) && (r.end.Completed? || j < Stop(r.end, |blocks|) - 1) ==>
        !Halts(r.blocks[j])
    decreases |blocks| - i
  {
    if i < |blocks| {
      var c := counter + 1;
      var d := step(blocks[i], c);
      var bs := blocks[i := d.op];
      if d.failed.None? && !Halts(d.op) {
        RunHalts(step, bs, i + 1, c, files + d.written);
        RunKeepsPrefix(step, bs, i + 1, c, files + d.written);
      }
    }
  }

  /** A completed run wrote the files of every block from i on, block after
      block, after the files written before it. */
  lemma {:induction false} RunWrites(step: Step, writes: Writer,
                                     blocks: seq<Block>, i: nat, counter: nat,
                                     files: seq<FileWrite>)
    requires i <= |blocks|
    requires StepWrites(step, writes)
    ensures var r := RunFrom(step, blocks, i, counter, files);
      r.end.Completed? ==> r.files == files + WritesOf(writes, r.blocks[i..])
    decreases |blocks| - i
  {
    if i < |blocks| {
      var c := counter + 1;
      var d := step(blocks[i], c);
      var bs := blocks[i := d.op];
      if d.failed.None? && !Halts(d.op) {
        var r := RunFrom(step, bs, i + 1, c, files + d.written);
        RunFromStep(step, blocks, i, counter, files);
        RunWrites(step, writes, bs, i + 1, c, files + d.written);
        RunKeepsPrefix(step, bs, i + 1, c, files + d.written);
        assert r.blocks[i] == d.op;
        if r.end.Completed? {
          WritesOfFrom(writes, r.blocks, i);
        }
      }
    }
  }

  /** A halted run wrote the files of the blocks up to and including the
      halting one, and none after it. */
  lemma {:induction false} RunWritesHalted(step: Step, writes: Writer,
                                     blocks: seq<Block>, i: nat, counter: nat,
                                     files: seq<FileWrite>)
    requires i <= |blocks|
    requires StepWrites(step, writes)
    ensures var r := RunFrom(step, blocks, i, counter, files);
      r.end.Halted? ==> r.files == files + WritesOf(writes, r.blocks[i..r.end.index + 1])
    decreases |blocks| - i
  {
    if i < |blocks| {
      var c := counter + 1;
      var d := step(blocks[i], c);
      var bs := blocks[i := d.op];
      if d.failed.None? && Halts(d.op) {
        assert d.written == writes(d.op);
        WritesOfOne(writes, bs, i);
      } else if d.failed.None? {
        var r := RunFrom(step, bs, i + 1, c, files + d.written);
        RunFromStep(step, blocks, i, counter, files);
        RunWritesHalted(step, writes, bs, i + 1, c, files + d.written);
        RunKeepsPrefix(step, bs, i + 1, c, files + d.written);
        assert r.blocks[i] == d.op;
        if r.end.Halted? {
          assert d.written == writes(d.op);
          WritesPrepend(writes, r.blocks, i, r.end.index + 1, files, d.written);
        }
      }
    }
  }

  /** A run whose write failed wrote the files of the earlier blocks, then a
      strict prefix of the failing block's, and none after it. */
  lemma {:induction false} RunWritesFailed(step: Step, writes: Writer,
                                     blocks: seq<Block>, i: nat, counter: nat,
                                     files: seq<FileWrite>)
    requires i <= |blocks|
    requires StepWrites(step, writes)
    ensures var r := RunFrom(step, blocks, i, counter, files);
      r.end.WriteFailed? ==>
        var done := files + WritesOf(writes, r.blocks[i..r.end.index]);
        done <= r.files < done + writes(r.blocks[r.end.index])
    decreases |blocks| - i
  {
    if i < |blocks| {
      var c := counter + 1;
      var d := step(blocks[i], c);
      var bs := blocks[i := d.op];
      if d.failed.Some? {
        assert bs[i..i] == [];
      } else if !Halts(d.op) {
        var r := RunFrom(step, bs, i + 1, c, files + d.written);
        RunFromStep(step, blocks, i, counter, files);
        RunWritesFailed(step, writes, bs, i + 1, c, files + d.written);
        RunKeepsPrefix(step, bs, i + 1, c, files + d.written);
        assert r.blocks[i] == d.op;
        if r.end.WriteFailed? {
          WritesOfRange(writes, r.blocks, i, r.end.index);
        }
      }
    }
  }
}
