/** The operation record (Block) and the run configuration (Config) of
    pkg/monobrew/config.go, with the variable store accessors the parser uses. */
module Configuration {

  /** One operation. The parser fills the first group of fields; the runner
      fills opCounter and the result fields (commandPath .. stdouterrFile).
      Timestamps and durations are abstract integers. */
  datatype Block = Block(
    touched: bool,
    opLabel: string,
    opCounter: nat,
    command: string,
    commandPath: string,
    args: seq<string>,
    stdin: string,
    success: bool,
    exitCode: int,
    haltIfFail: bool,
    startTime: int,
    endTime: int,
    elapsedTime: int,
    runError: string,
    stdouterrIsEmpty: bool,
    stdouterr: string,
    stdouterrFile: string)

  /** The result fields still hold their zero values: the block has not run. */
  predicate NotExecuted(b: Block)
  {
    && b.opCounter == 0 && b.commandPath == "" && !b.success && b.exitCode == 0
    && b.startTime == 0 && b.endTime == 0 && b.elapsedTime == 0 && b.runError == ""
    && !b.stdouterrIsEmpty && b.stdouterr == "" && b.stdouterrFile == ""
  }

  /** &Block{Label: name}: a block labelled name with every other field at its zero value. */
  function EmptyBlock(name: string): (b: Block)
    ensures b.opLabel == name && !b.touched && !b.haltIfFail && NotExecuted(b)
    ensures b.command == "" && b.args == [] && b.stdin == ""
  {
    Block(false, name, 0, "", "", [], "", false, 0, false, 0, 0, 0, "", false, "", "")
  }

  /** CmdBlock: a ready-to-run shell operation whose script is command. It is
      not marked touched: only the parser sets that flag. */
  function CmdBlock(name: string, command: string): (b: Block)
    ensures b.opLabel == name && b.stdin == command
    ensures b.command == "sh" && b.args == ["-sex"]
    ensures !b.success && !b.touched && !b.haltIfFail && NotExecuted(b)
  {
    EmptyBlock(name).(stdin := command, command := "sh", args := ["-sex"])
  }

  const DefaultStateDir: string := "/var/tmp/monobrew"
  const StateDirLabel: string := "make-monobrew-statedir"

  /** The script Load schedules to create the state directory. */
  function MkdirScript(dir: string): string
  {
    "mkdir -p " + dir + "; chmod 700 " + dir
  }

  /** Reading a variable from the store; a missing key reads as "" (the zero
      value a Go map lookup gives). */
  function Lookup(status: map<string, string>, key: string): (v: string)
    ensures key in status ==> v == status[key]
    ensures key !in status ==> v == ""
  {
    if key in status then status[key] else ""
  }

  /** Writing a variable after a lookup of another key: writes only affect
      their own key, and the last write to a key wins. */
  lemma LookupAfterSet(status: map<string, string>, k: string, v: string, key: string)
    ensures Lookup(status[k := v], key) == if key == k then v else Lookup(status, key)
  {
  }

  class Config {
    var stateDir: string
    var configFiles: seq<string>
    /** The text ExpandConfigs builds (the field parser.go writes). */
    var configExpanded: string
    var blocks: seq<Block>
    /** The variable store. */
    var status: map<string, string>
    var printVerboseResult: bool

    /** NewConfig. */
    constructor ()
      ensures stateDir == DefaultStateDir && !printVerboseResult
      ensures blocks == [] && status == map[] && configFiles == [] && configExpanded == ""
    {
      stateDir := DefaultStateDir;
      printVerboseResult := false;
      blocks := [];
      status := map[];
      configFiles := [];
      configExpanded := "";
    }

    /** The operations to run, in the order they were added. */
    method OrderedOps() returns (ops: seq<Block>)
      ensures ops == blocks
    {
      ops := blocks;
    }

    /** Schedules the creation of the state directory as one more operation. */
    method Load()
      modifies this
      ensures blocks == old(blocks) + [CmdBlock(StateDirLabel, MkdirScript(old(stateDir)))]
      ensures stateDir == old(stateDir) && configFiles == old(configFiles)
      ensures configExpanded == old(configExpanded) && status == old(status)
      ensures printVerboseResult == old(printVerboseResult)
    {
      var script := MkdirScript(stateDir);
      AddCmdBlock(StateDirLabel, script);
    }

    method AddConfigFile(file: string)
      modifies this
      ensures configFiles == old(configFiles) + [file]
      ensures stateDir == old(stateDir) && blocks == old(blocks)
      ensures configExpanded == old(configExpanded) && status == old(status)
      ensures printVerboseResult == old(printVerboseResult)
    {
      configFiles := configFiles + [file];
    }

    method AddCmdBlock(name: string, command: string)
      modifies this
      ensures blocks == old(blocks) + [CmdBlock(name, command)]
      ensures stateDir == old(stateDir) && configFiles == old(configFiles)
      ensures configExpanded == old(configExpanded) && status == old(status)
      ensures printVerboseResult == old(printVerboseResult)
    {
      var b := CmdBlock(name, command);
      blocks := blocks + [b];
    }

    /** Reads one variable; a missing one reads as the empty string. */
    method GetStatusKey(key: string) returns (v: string)
      ensures key in status ==> v == status[key]
      ensures key !in status ==> v == ""
    {
      v := Lookup(status, key);
    }

    /** Inserts or overwrites one variable. */
    method SetStatusKey(key: string, value: string)
      modifies this
      ensures status == old(status)[key := value]
      ensures stateDir == old(stateDir) && configFiles == old(configFiles)
      ensures configExpanded == old(configExpanded) && blocks == old(blocks)
      ensures printVerboseResult == old(printVerboseResult)
    {
      status := status[key := value];
    }
  }
}
