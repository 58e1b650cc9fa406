/** The Parser of pkg/monobrew/parser.go: its fields, updated in place one
    line at a time, and the Config it writes blocks and variables into. Each
    method is proved to move the parser exactly as the ParserSpec machine
    does. */
module Parsing {
  import opened Maybe
  import opened Text
  import opened LineSyntax
  import opened Configuration
  import opened ParserSpec
  import opened Inclusion

  class Parser {
    const config: Config
    var mode: Mode
    var endToken: string
    var currentBlock: Option<Block>
    var currentScript: string
    var currentVarKey: string
    var currentVar: string
    var inHereis: bool

    /** The parser's state as the ParserSpec machine sees it. */
    ghost function Snapshot(): PState
      reads this, config
    {
      PState(mode, inHereis, endToken, currentBlock, currentScript, currentVarKey, currentVar,
             config.blocks, config.status)
    }

    /** The fields of the configuration the parser never writes. */
    ghost predicate ConfigFrame(stateDir: string, files: seq<string>, expanded: string, verbose: bool)
      reads config
    {
      config.stateDir == stateDir && config.configFiles == files
      && config.configExpanded == expanded && config.printVerboseResult == verbose
    }

    /** NewParser. */
    constructor (config: Config)
      ensures this.config == config
      ensures Snapshot() == Initial(config.blocks, config.status)
    {
      this.config := config;
      mode := TopLevel;
      endToken := "";
      currentBlock := None;
      currentScript := "";
      currentVarKey := "";
      currentVar := "";
      inHereis := false;
    }

    method StoreBlock()
      modifies this, config
      ensures Snapshot() == ParserSpec.StoreBlock(old(Snapshot()))
      ensures ConfigFrame(old(config.stateDir), old(config.configFiles), old(config.configExpanded),
                          old(config.printVerboseResult))
    {
      if currentBlock.Some? && currentBlock.value.touched {
        var b := currentBlock.value;
        if Count(b.stdin, '\n') == 1 {
          b := b.(stdin := TrimRight(b.stdin, '\n'));
        }
        config.blocks := config.blocks + [b];
        currentBlock := Some(EmptyBlock(""));
      }
    }

    /** StartBlock on a line newOpRe matches, labelled with what it captures. */
    method StartBlock(line: string)
      requires NewOpLabel(line).Some?
      modifies this, config
      ensures Snapshot() == ParserSpec.StartBlock(old(Snapshot()), NewOpLabel(line).value)
      ensures ConfigFrame(old(config.stateDir), old(config.configFiles), old(config.configExpanded),
                          old(config.printVerboseResult))
    {
      var name := NewOpLabel(line).value;
      mode := DefiningBlock;
      StoreBlock();
      currentBlock := Some(EmptyBlock(name));
    }

    /** One pass of the ParseConfig loop body. Err is the nil dereference. */
    method ProcessLine(line: string) returns (r: Result<(), ParseError>)
      modifies this, config
      ensures r.Ok? <==> Step(old(Snapshot()), line).Ok?
      ensures r.Ok? ==> Snapshot() == Step(old(Snapshot()), line).value
      ensures ConfigFrame(old(config.stateDir), old(config.configFiles), old(config.configExpanded),
                          old(config.printVerboseResult))
    {
      ghost var s0 := Snapshot();
      if !inHereis && IsComment(line) {
        return Ok(());
      }
      if !inHereis && IsDirective(line) {
        StoreBlock();
        mode := TopLevel;
      }
      ghost var s1 := Snapshot();
      assert Step(s0, line) == Dispatch(s1, line);
      if mode == TopLevel {
        r := TopLevelLine(line);
        return;
      }
      if mode == DefiningBlock {
        r := BlockLine(line);
        return;
      }
      if mode == DefiningScript {
        if line == endToken {
          if currentBlock.None? {
            return Err(NilBlock);
          }
          currentBlock := Some(currentBlock.value.(stdin := currentScript));
          mode := DefiningBlock;
          inHereis := false;
          currentBlock := Some(currentBlock.value.(touched := true));
        } else {
          currentScript := currentScript + line + "\n";
        }
        return Ok(());
      }
      if line == endToken {
        config.SetStatusKey(currentVarKey, currentVar);
        currentVarKey := "";
        currentVar := "";
        mode := DefiningBlock;
        inHereis := false;
      } else {
        currentVar := currentVar + line + "\n";
      }
      return Ok(());
    }

    /** The TopLevel part of the loop body. */
    method TopLevelLine(line: string) returns (r: Result<(), ParseError>)
      requires mode == TopLevel
      modifies this, config
      ensures r == Ok(()) && Snapshot() == ParserSpec.TopLevelLine(old(Snapshot()), line)
      ensures ConfigFrame(old(config.stateDir), old(config.configFiles), old(config.configExpanded),
                          old(config.printVerboseResult))
    {
      r := Ok(());
      if NewOpLabel(line).Some? {
        StartBlock(line);
      } else if HasPrefix(line, "state-dir") {
        // the state-dir directive is recognised and skipped
      } else {
        var m := MatchVar(line);
        if m.Some? {
          VarLine(m.value);
        }
      }
    }

    /** A `var` line in TopLevel, with what varRe captured. */
    method VarLine(m: VarDirective)
      modifies this, config
      ensures Snapshot() == VarDirectiveLine(old(Snapshot()), m)
      ensures ConfigFrame(old(config.stateDir), old(config.configFiles), old(config.configExpanded),
                          old(config.printVerboseResult))
    {
      var variable, dir, value := m.name, m.dir, m.value;
      if dir == "is" {
        config.SetStatusKey(variable, value);
      } else if dir == "until" {
        mode := DefiningVar;
        inHereis := true;
        currentVar := "";
        currentVarKey := variable;
        endToken := value;
      }
    }

    /** The DefiningBlock part of the loop body. */
    method BlockLine(line: string) returns (r: Result<(), ParseError>)
      requires mode == DefiningBlock
      modifies this
      ensures r.Ok? <==> ParserSpec.BlockLine(old(Snapshot()), line).Ok?
      ensures r.Ok? ==> Snapshot() == ParserSpec.BlockLine(old(Snapshot()), line).value
    {
      if IsShellLine(line) {
        if currentBlock.None? {
          return Err(NilBlock);
        }
        ExecShell(line);
        return Ok(());
      } else if HasPrefix(line, "halt-if-fail") {
        if currentBlock.None? {
          return Err(NilBlock);
        }
        currentBlock := Some(currentBlock.value.(haltIfFail := true));
        currentBlock := Some(currentBlock.value.(touched := true));
        return Ok(());
      }
      return Ok(());
    }

    /** An `exec shell` line applied to the current block. */
    method ExecShell(line: string)
      requires IsShellLine(line) && currentBlock.Some?
      modifies this
      ensures Snapshot() == ParserSpec.ExecShell(old(Snapshot()), old(currentBlock.value), line)
    {
      var b := currentBlock.value.(touched := true, command := "sh", args := ["-sex"]);
      ShellLineFields(line);
      var parts := SplitFields(line, 4);
      var fieldMode := LowerString(parts[2]);
      if fieldMode == "until" {
        currentBlock := Some(b);
        mode := DefiningScript;
        inHereis := true;
        currentScript := "";
        endToken := parts[3];
      } else if fieldMode == "from" {
        var value := config.GetStatusKey(parts[3]);
        currentBlock := Some(b.(stdin := value));
      } else {
        currentBlock := Some(b);
      }
    }

    /** AppendConfigToExpanded: the contents path names added to the end of
        the expanded text. */
    method AppendConfigToExpanded(src: Sources, path: string) returns (r: Result<(), ExpandError>)
      modifies config
      ensures r.Ok? <==> GetConfigContents(src, path).Ok?
      ensures r.Err? ==> r.error == Unreadable(path)
      ensures r.Ok? ==> config.configExpanded == old(config.configExpanded) + GetConfigContents(src, path).value
      ensures config.blocks == old(config.blocks) && config.status == old(config.status)
      ensures config.stateDir == old(config.stateDir) && config.configFiles == old(config.configFiles)
      ensures config.printVerboseResult == old(config.printVerboseResult)
    {
      var contents := GetConfigContents(src, path);
      if contents.Err? {
        return Err(contents.error);
      }
      config.configExpanded := config.configExpanded + contents.value;
      return Ok(());
    }

    /** ExpandConfigs: the configuration files concatenated, then include lines
        replaced pass after pass; a pass beyond the limit is an error. */
    method ExpandConfigs(src: Sources) returns (r: Result<(), ExpandError>)
      modifies config
      ensures r.Ok? <==> Inclusion.ExpandConfigs(src, old(config.configFiles)).Ok?
      ensures r.Err? ==> r.error == Inclusion.ExpandConfigs(src, old(config.configFiles)).error
      ensures r.Ok? ==> config.configExpanded == Inclusion.ExpandConfigs(src, old(config.configFiles)).value
      ensures config.blocks == old(config.blocks) && config.status == old(config.status)
      ensures config.stateDir == old(config.stateDir) && config.configFiles == old(config.configFiles)
      ensures config.printVerboseResult == old(config.printVerboseResult)
    {
      r := ConcatenateConfigs(src);
      if r.Err? {
        return;
      }
      r := ExpandIncludes(src);
    }

    /** The first loop of ExpandConfigs: every configuration file appended in
        turn to an emptied expanded text. */
    method ConcatenateConfigs(src: Sources) returns (r: Result<(), ExpandError>)
      modifies config
      ensures r.Ok? <==> Concatenated(src, old(config.configFiles)).Ok?
      ensures r.Err? ==> r.error == Concatenated(src, old(config.configFiles)).error
      ensures r.Ok? ==> config.configExpanded == Concatenated(src, old(config.configFiles)).value
      ensures config.blocks == old(config.blocks) && config.status == old(config.status)
      ensures config.stateDir == old(config.stateDir) && config.configFiles == old(config.configFiles)
      ensures config.printVerboseResult == old(config.printVerboseResult)
    {
      config.configExpanded := "";
      var files := config.configFiles;
      var i := 0;
      while i < |files|
        invariant 0 <= i <= |files|
        invariant Concatenated(src, files[..i]) == Ok(config.configExpanded)
        invariant config.blocks == old(config.blocks) && config.status == old(config.status)
        invariant config.stateDir == old(config.stateDir) && config.configFiles == files == old(config.configFiles)
        invariant config.printVerboseResult == old(config.printVerboseResult)
      {
        assert files[..i + 1][..i] == files[..i];
        r := AppendConfigToExpanded(src, files[i]);
        if r.Err? {
          ConcatenatedPrefixFails(src, files, i + 1);
          return;
        }
        i := i + 1;
      }
      assert files[..|files|] == files;
      r := Ok(());
    }

    /** The second loop of ExpandConfigs: passes over the expanded text until
        one leaves no include line, at most MaxPasses of them. */
    method ExpandIncludes(src: Sources) returns (r: Result<(), ExpandError>)
      modifies config
      ensures r.Ok? <==> Expand(PassOf(src), old(config.configExpanded), 0).Ok?
      ensures r.Err? ==> r.error == Expand(PassOf(src), old(config.configExpanded), 0).error
      ensures r.Ok? ==> config.configExpanded == Expand(PassOf(src), old(config.configExpanded), 0).value
      ensures config.blocks == old(config.blocks) && config.status == old(config.status)
      ensures config.stateDir == old(config.stateDir) && config.configFiles == old(config.configFiles)
      ensures config.printVerboseResult == old(config.printVerboseResult)
    {
      var loops := 0;
      var includesFound := true;
      ghost var goal := Expand(PassOf(src), config.configExpanded, 0);
      while includesFound
        invariant loops <= MaxPasses
        invariant includesFound ==> goal == Expand(PassOf(src), config.configExpanded, loops)
        invariant !includesFound ==> goal == Ok(config.configExpanded)
        invariant config.blocks == old(config.blocks) && config.status == old(config.status)
        invariant config.stateDir == old(config.stateDir) && config.configFiles == old(config.configFiles)
        invariant config.printVerboseResult == old(config.printVerboseResult)
        decreases MaxPasses - loops + (if includesFound then 1 else 0)
      {
        ghost var before := config.configExpanded;
        loops := loops + 1;
        if loops > MaxPasses {
          return Err(TooDeep);
        }
        r := ExpandPass(src);
        if r.Err? {
          ExpandFailsWithPass(PassOf(src), before, loops - 1);
          return;
        }
        if !HasInclude(config.configExpanded) {
          ExpandLast(PassOf(src), before, loops - 1);
          includesFound := false;
        } else {
          ExpandStep(PassOf(src), before, loops - 1);
        }
      }
      r := Ok(());
    }

    /** One pass of the second loop: every include line of the expanded text
        replaced by what it names. */
    method ExpandPass(src: Sources) returns (r: Result<(), ExpandError>)
      modifies config
      ensures r.Ok? <==> Pass(src, old(config.configExpanded)).Ok?
      ensures r.Err? ==> r.error == Pass(src, old(config.configExpanded)).error
      ensures r.Ok? ==> config.configExpanded == Pass(src, old(config.configExpanded)).value
      ensures config.blocks == old(config.blocks) && config.status == old(config.status)
      ensures config.stateDir == old(config.stateDir) && config.configFiles == old(config.configFiles)
      ensures config.printVerboseResult == old(config.printVerboseResult)
    {
      var expanded := Pass(src, config.configExpanded);
      if expanded.Err? {
        return Err(expanded.error);
      }
      config.configExpanded := expanded.value;
      r := Ok(());
    }

    /** ParseConfig over a body already read into a string: every line, in
        order, then a final StoreBlock. Err is the nil dereference, after which
        the source panics and the state no longer matters. */
    method ParseConfig(body: string) returns (r: Result<(), ParseError>)
      modifies this, config
      ensures r.Ok? <==> ParseText(old(Snapshot()), body).Ok?
      ensures r.Ok? ==> Snapshot() == ParseText(old(Snapshot()), body).value
      ensures ConfigFrame(old(config.stateDir), old(config.configFiles), old(config.configExpanded),
                          old(config.printVerboseResult))
    {
      var lines := ScanLines(body);
      var i := 0;
      while i < |lines|
        invariant 0 <= i <= |lines|
        invariant ParseLines(old(Snapshot()), lines) == ParseLines(Snapshot(), lines[i..])
        invariant ConfigFrame(old(config.stateDir), old(config.configFiles), old(config.configExpanded),
                              old(config.printVerboseResult))
      {
        ghost var before := Snapshot();
        assert lines[i..][0] == lines[i] && lines[i..][1..] == lines[i + 1..];
        r := ProcessLine(lines[i]);
        if r.Err? {
          assert ParseLines(before, lines[i..]).Err?;
          return;
        }
        i := i + 1;
      }
      assert lines[i..] == [];
      StoreBlock();
      r := Ok(());
    }
  }
}
