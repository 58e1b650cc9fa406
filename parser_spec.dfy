/** The line-by-line state machine of Parser.ParseConfig (pkg/monobrew/parser.go),
    as a function from a parser state and one line to the next state. The
    Parsing module's Parser class runs this machine in place; the lemmas
    here state what it does. */
module ParserSpec {
  import opened Maybe
  import opened Text
  import opened LineSyntax
  import opened Configuration

  /** The parser's state constants. DefiningStdin is declared by the source
      but never entered, so it has no counterpart here. */
  datatype Mode = TopLevel | DefiningBlock | DefiningScript | DefiningVar

  /** The one way the machine fails: an `exec shell` or `halt-if-fail` line
      reached while there is no current block (a nil pointer dereference,
      which makes the Go program panic). */
  datatype ParseError = NilBlock

  /** The parser's fields together with the two parts of the configuration it
      writes: the stored blocks and the variable store. None for current is a
      nil currentBlock. */
  datatype PState = PState(
    mode: Mode,
    inHereis: bool,
    endToken: string,
    current: Option<Block>,
    script: string,
    varKey: string,
    varValue: string,
    blocks: seq<Block>,
    status: map<string, string>)

  /** NewParser over a configuration holding blocks and status. */
  function Initial(blocks: seq<Block>, status: map<string, string>): (s: PState)
    ensures s.mode == TopLevel && !s.inHereis && s.current == None
    ensures s.blocks == blocks && s.status == status
  {
    PState(TopLevel, false, "", None, "", "", "", blocks, status)
  }

  /** The parser's invariant: a capture is in progress exactly in the two
      capturing modes, and a script capture always has a block to fill. */
  predicate Wf(s: PState)
  {
    && (s.inHereis <==> s.mode == DefiningScript || s.mode == DefiningVar)
    && (s.mode == DefiningScript ==> s.current.Some?)
  }

  // ---- storing a block ----

  /** The store-time rule for a script: one holding exactly one newline loses
      its trailing newlines, any other is kept. */
  function NormalizeScript(stdin: string): (r: string)
    ensures |r| <= |stdin| && r == stdin[..|r|]
    ensures forall i :: |r| <= i < |stdin| ==> stdin[i] == '\n'
    ensures Count(stdin, '\n') != 1 ==> r == stdin
    ensures r == [] || r[|r| - 1] != '\n' || Count(stdin, '\n') >= 2
  {
    if Count(stdin, '\n') == 1 then TrimRight(stdin, '\n')
    else
      if stdin != [] && stdin[|stdin| - 1] == '\n' then
        EndingNewlineCounts(stdin);
        stdin
      else stdin
  }

  /** A string ending in a newline holds at least one. */
  lemma EndingNewlineCounts(s: string)
    requires s != [] && s[|s| - 1] == '\n'
    ensures Count(s, '\n') >= 1
  {
    assert s == s[..|s| - 1] + ['\n'];
    CountConcat(s[..|s| - 1], ['\n'], '\n');
  }

  /** The block as it is appended to the configuration. */
  function Stored(b: Block): Block
  {
    b.(stdin := NormalizeScript(b.stdin))
  }

  /** What every block the parser appends satisfies: it was touched, and its
      script ends in a newline only when it holds two or more lines. */
  predicate WellStored(b: Block)
  {
    && b.touched
    && (b.stdin != [] && b.stdin[|b.stdin| - 1] == '\n' ==> Count(b.stdin, '\n') >= 2)
  }

  /** t's block list is s's followed by well-stored blocks only: nothing
      stored earlier was changed, removed or reordered. */
  predicate Extends(s: PState, t: PState)
  {
    && s.blocks <= t.blocks
    && forall i :: |s.blocks| <= i < |t.blocks| ==> WellStored(t.blocks[i])
  }

  /** StoreBlock: a touched current block is appended (normalised) and
      replaced by a fresh empty one; a nil or untouched one is left alone, so
      untouched blocks never reach the configuration. */
  function StoreBlock(s: PState): (r: PState)
    ensures r.mode == s.mode && r.inHereis == s.inHereis && r.endToken == s.endToken
    ensures r.script == s.script && r.varKey == s.varKey && r.varValue == s.varValue
    ensures r.status == s.status
    ensures s.current.Some? && s.current.value.touched ==>
      r.blocks == s.blocks + [Stored(s.current.value)] && r.current == Some(EmptyBlock(""))
    ensures !(s.current.Some? && s.current.value.touched) ==> r == s
    ensures Extends(s, r)
  {
    if s.current.Some? && s.current.value.touched then
      s.(blocks := s.blocks + [Stored(s.current.value)], current := Some(EmptyBlock("")))
    else s
  }

  /** StartBlock: the previous block is stored and a new, untouched one
      labelled name becomes current. */
  function StartBlock(s: PState, name: string): (r: PState)
    ensures r.mode == DefiningBlock && r.current == Some(EmptyBlock(name))
    ensures r.inHereis == s.inHereis && r.status == s.status && Extends(s, r)
    ensures s.current.Some? && s.current.value.touched ==> r.blocks == s.blocks + [Stored(s.current.value)]
    ensures !(s.current.Some? && s.current.value.touched) ==> r.blocks == s.blocks
  {
    StoreBlock(s.(mode := DefiningBlock)).(current := Some(EmptyBlock(name)))
  }

  // ---- one line ----

  /** One iteration of the ParseConfig loop. */
  function Step(s: PState, line: string): Result<PState, ParseError>
  {
    if !s.inHereis && IsComment(line) then Ok(s)
    else
      var s1 := if !s.inHereis && IsDirective(line) then StoreBlock(s).(mode := TopLevel) else s;
      Dispatch(s1, line)
  }

  /** The part of the loop body that depends on the mode. */
  function Dispatch(s: PState, line: string): Result<PState, ParseError>
  {
    match s.mode
    case TopLevel => Ok(TopLevelLine(s, line))
    case DefiningBlock => BlockLine(s, line)
    case DefiningScript => ScriptLine(s, line)
    case DefiningVar => Ok(VarCaptureLine(s, line))
  }

  /** A line in TopLevel: `new-op`, the ignored `state-dir`, or `var`; any
      other line is skipped. */
  function TopLevelLine(s: PState, line: string): (r: PState)
    ensures Extends(s, r)
    ensures || (r.mode == DefiningVar && r.inHereis)
            || (r.inHereis == s.inHereis && (r.mode == s.mode || r.mode == DefiningBlock))
  {
    if NewOpLabel(line).Some? then StartBlock(s, NewOpLabel(line).value)
    else if HasPrefix(line, "state-dir") then s
    else if MatchVar(line).Some? then VarDirectiveLine(s, MatchVar(line).value)
    else s
  }

  /** A `var` line in TopLevel. The direction is compared case-sensitively,
      so a direction the pattern accepted in another case does nothing. */
  function VarDirectiveLine(s: PState, m: VarDirective): (r: PState)
    ensures r.blocks == s.blocks && r.current == s.current
    ensures r == s || (r.mode == DefiningVar && r.inHereis) || (r.mode == s.mode && r.inHereis == s.inHereis)
  {
    if m.dir == "is" then s.(status := s.status[m.name := m.value])
    else if m.dir == "until" then
      s.(mode := DefiningVar, inHereis := true, varValue := "", varKey := m.name, endToken := m.value)
    else s
  }

  /** A line in DefiningBlock: `exec shell`, an unindented `halt-if-fail`, or
      an unknown line, which is skipped. */
  function BlockLine(s: PState, line: string): (r: Result<PState, ParseError>)
    ensures r.Err? <==> s.current == None && (IsShellLine(line) || HasPrefix(line, "halt-if-fail"))
    ensures r.Ok? ==> r.value.blocks == s.blocks && r.value.status == s.status
    ensures r.Ok? ==>
      || (r.value.mode == s.mode && r.value.inHereis == s.inHereis)
      || (r.value.mode == DefiningScript && r.value.inHereis && r.value.current.Some?)
  {
    if IsShellLine(line) then
      match s.current
      case None => Err(NilBlock)
      case Some(b) => Ok(ExecShell(s, b, line))
    else if HasPrefix(line, "halt-if-fail") then
      match s.current
      case None => Err(NilBlock)
      case Some(b) => Ok(s.(current := Some(b.(haltIfFail := true, touched := true))))
    else Ok(s)
  }

  /** An `exec shell` line applied to the current block b. The mode is the
      third field of the line split on runs of \s, in lower case. */
  function ExecShell(s: PState, b: Block, line: string): (r: PState)
    requires IsShellLine(line)
    ensures r.blocks == s.blocks && r.status == s.status && r.current.Some?
    ensures r.current.value.touched && r.current.value.command == "sh" && r.current.value.args == ["-sex"]
    ensures (r.mode == s.mode && r.inHereis == s.inHereis) || (r.mode == DefiningScript && r.inHereis)
  {
    var b1 := b.(touched := true, command := "sh", args := ["-sex"]);
    ShellLineFields(line);
    var parts := SplitFields(line, 4);
    var mode := LowerString(parts[2]);
    if mode == "until" then
      s.(current := Some(b1), mode := DefiningScript, inHereis := true, script := "", endToken := parts[3])
    else if mode == "from" then s.(current := Some(b1.(stdin := Lookup(s.status, parts[3]))))
    else s.(current := Some(b1))
  }

  /** A line inside a script capture. */
  function ScriptLine(s: PState, line: string): (r: Result<PState, ParseError>)
    ensures r.Err? <==> line == s.endToken && s.current == None
    ensures r.Ok? ==> r.value.blocks == s.blocks && r.value.status == s.status
    ensures r.Ok? ==>
      || (r.value.mode == s.mode && r.value.inHereis == s.inHereis && r.value.current == s.current)
      || (r.value.mode == DefiningBlock && !r.value.inHereis)
  {
    if line == s.endToken then
      match s.current
      case None => Err(NilBlock)
      case Some(b) =>
        Ok(s.(current := Some(b.(stdin := s.script, touched := true)), mode := DefiningBlock, inHereis := false))
    else Ok(s.(script := s.script + line + "\n"))
  }

  /** A line inside a variable capture. */
  function VarCaptureLine(s: PState, line: string): (r: PState)
    ensures r.blocks == s.blocks && r.current == s.current
    ensures (r.mode == s.mode && r.inHereis == s.inHereis) || (r.mode == DefiningBlock && !r.inHereis)
  {
    if line == s.endToken then
      s.(status := s.status[s.varKey := s.varValue], varKey := "", varValue := "",
         mode := DefiningBlock, inHereis := false)
    else s.(varValue := s.varValue + line + "\n")
  }

  /** The loop over all lines; the first failing line ends the parse. */
  function ParseLines(s: PState, lines: seq<string>): Result<PState, ParseError>
    decreases |lines|
  {
    if lines == [] then Ok(s)
    else
      match Step(s, lines[0])
      case Err(e) => Err(e)
      case Ok(s1) => ParseLines(s1, lines[1..])
  }

  /** ParseConfig: every line of the body, then a final StoreBlock. A capture
      still open at the end of the input is not an error. */
  function ParseText(s: PState, body: string): Result<PState, ParseError>
  {
    match ParseLines(s, ScanLines(body))
    case Err(e) => Err(e)
    case Ok(t) => Ok(StoreBlock(t))
  }
}
