/** What the parser state machine of ParserSpec guarantees. */
module ParserLemmas {
  import opened Maybe
  import opened Text
  import opened LineSyntax
  import opened Configuration
  import opened ParserSpec

  // ---- the store-time normalisation ----

  /** A one-line script, as a hereis capture leaves it, is stored without
      its newline. */
  lemma OneLineScript(line: string)
    requires '\n' !in line
    ensures NormalizeScript(line + "\n") == line
  {
    CountNone(line, '\n');
    CountConcat(line, "\n", '\n');
    assert (line + "\n")[..|line|] == line;
    assert line == [] || line[|line| - 1] != '\n';
  }

  /** A script of two or more lines is stored as captured. */
  lemma ManyLineScript(stdin: string)
    requires Count(stdin, '\n') >= 2
    ensures NormalizeScript(stdin) == stdin
  {
  }

  /** Normalising twice changes nothing more. */
  lemma NormalizeIdempotent(stdin: string)
    ensures NormalizeScript(NormalizeScript(stdin)) == NormalizeScript(stdin)
  {
    var r := NormalizeScript(stdin);
    if Count(stdin, '\n') == 1 && r != stdin {
      var tail := stdin[|r|..];
      assert stdin == r + tail;
      CountConcat(r, tail, '\n');
      CountAll(tail, '\n');
      assert Count(r, '\n') == 0;
    }
  }

  /** Every block StoreBlock appends satisfies WellStored. */
  lemma StoredIsWell(b: Block)
    requires b.touched
    ensures WellStored(Stored(b))
  {
  }

  /** A second StoreBlock right after a first finds an untouched block. */
  lemma StoreBlockTwice(s: PState)
    ensures StoreBlock(StoreBlock(s)) == StoreBlock(s)
  {
  }

  // ---- blocks are only ever appended ----

  lemma ExtendsTrans(s: PState, t: PState, u: PState)
    requires Extends(s, t) && Extends(t, u)
    ensures Extends(s, u)
  {
  }

  /** One line appends at most one block (a later store inside StartBlock
      finds nothing to store) and changes none of the stored ones. */
  lemma StepExtends(s: PState, line: string)
    requires Step(s, line).Ok?
    ensures Extends(s, Step(s, line).value)
    ensures |Step(s, line).value.blocks| <= |s.blocks| + 1
  {
    if !(!s.inHereis && IsComment(line)) {
      var s1 := if !s.inHereis && IsDirective(line) then StoreBlock(s).(mode := TopLevel) else s;
      assert Extends(s, s1);
      ExtendsTrans(s, s1, Dispatch(s1, line).value);
      if !s.inHereis && IsDirective(line) {
        // the store inside StartBlock finds the fresh, untouched block
        assert !(s1.current.Some? && s1.current.value.touched);
      }
    }
  }

  /** Stored blocks keep their order and are never modified or removed; every
      block the parse adds was touched and normalised. */
  lemma {:induction false} ParseLinesExtends(s: PState, lines: seq<string>)
    requires ParseLines(s, lines).Ok?
    ensures Extends(s, ParseLines(s, lines).value)
    decreases |lines|
  {
    if lines != [] {
      StepExtends(s, lines[0]);
      var s1 := Step(s, lines[0]).value;
      ParseLinesExtends(s1, lines[1..]);
      ExtendsTrans(s, s1, ParseLines(s, lines).value);
    }
  }

  /** ParseConfig over a text written as whole lines runs the machine over
      exactly those lines, then stores the last block. */
  lemma ParseTextOfLines(s: PState, lines: seq<string>)
    requires forall i :: 0 <= i < |lines| ==> PlainLine(lines[i])
    ensures ParseText(s, Unlines(lines)) ==
      match ParseLines(s, lines)
      case Err(e) => Err(e)
      case Ok(t) => Ok(StoreBlock(t))
  {
    ScanLinesRoundTrip(lines);
  }

  lemma ParseTextExtends(s: PState, body: string)
    requires ParseText(s, body).Ok?
    ensures Extends(s, ParseText(s, body).value)
  {
    var t := ParseLines(s, ScanLines(body)).value;
    ParseLinesExtends(s, ScanLines(body));
    ExtendsTrans(s, t, StoreBlock(t));
  }

  // ---- the invariant ----

  lemma StepKeepsWf(s: PState, line: string)
    requires Wf(s) && Step(s, line).Ok?
    ensures Wf(Step(s, line).value)
  {
    if !(!s.inHereis && IsComment(line)) {
      var s1 := if !s.inHereis && IsDirective(line) then StoreBlock(s).(mode := TopLevel) else s;
      assert Wf(s1);
    }
  }

  lemma {:induction false} ParseLinesKeepsWf(s: PState, lines: seq<string>)
    requires Wf(s) && ParseLines(s, lines).Ok?
    ensures Wf(ParseLines(s, lines).value)
    decreases |lines|
  {
    if lines != [] {
      StepKeepsWf(s, lines[0]);
      ParseLinesKeepsWf(Step(s, lines[0]).value, lines[1..]);
    }
  }

  /** Under the invariant the parse fails on a line exactly when the line is
      an `exec shell` or `halt-if-fail` line handled in DefiningBlock while
      there is no current block. */
  lemma NilBlockExactly(s: PState, line: string)
    requires Wf(s)
    ensures Step(s, line).Err? <==>
      && !s.inHereis && !IsComment(line) && !IsDirective(line)
      && s.mode == DefiningBlock && s.current == None
      && (IsShellLine(line) || HasPrefix(line, "halt-if-fail"))
  {
  }

  /** A top-level `var NAME until END` capture with no `new-op` before it
      leaves the parser in DefiningBlock with no block, so a following
      `exec shell` line fails. */
  lemma VarCaptureThenExecFails(s: PState, key: string, end: string, line: string)
    requires s.mode == DefiningVar && s.inHereis && s.current == None && s.endToken == end
    requires IsShellLine(line)
    ensures ParseLines(s, [end, line]) == Err(NilBlock)
  {
    var s1 := Step(s, end).value;
    assert s1.mode == DefiningBlock && !s1.inHereis && s1.current == None;
    ShellLineIsNotDirective(line);
    assert [end, line][1..] == [line];
  }

  // ---- how the first visible character decides a line's kind ----

  /** The first character after the indent of each kind of line. */
  lemma LeadingChar(line: string)
    ensures IsComment(line) ==> SkipSpaces(line) != [] && (SkipSpaces(line)[0] == '#' || SkipSpaces(line)[0] == '/')
    ensures NewOpLabel(line).Some? ==> SkipSpaces(line) != [] && Lower(SkipSpaces(line)[0]) == 'n'
    ensures MatchVar(line).Some? ==> SkipSpaces(line) != [] && Lower(SkipSpaces(line)[0]) == 'v'
    ensures IsShellLine(line) ==> SkipSpaces(line) != [] && Lower(SkipSpaces(line)[0]) == 'e'
  {
    var r0 := SkipSpaces(line);
    if r0 != [] {
      var _ := Lower(r0[0]);
    }
  }

  /** A directive line is never taken for a comment. */
  lemma DirectiveIsNotComment(line: string)
    requires IsDirective(line)
    ensures !IsComment(line)
  {
    LeadingChar(line);
  }

  /** A `var` line is neither a `new-op` line nor a `state-dir` line. */
  lemma VarIsOnlyVar(line: string)
    requires MatchVar(line).Some?
    ensures NewOpLabel(line).None? && !HasPrefix(line, "state-dir")
  {
    LeadingChar(line);
  }

  /** An `exec shell` line is no comment and no directive. */
  lemma ShellLineIsNotDirective(line: string)
    requires IsShellLine(line)
    ensures !IsComment(line) && NewOpLabel(line).None? && MatchVar(line).None?
  {
    LeadingChar(line);
  }

  // ---- directives ----

  /** Outside a capture a comment line is skipped and changes nothing. */
  lemma CommentSkipped(s: PState, line: string)
    requires !s.inHereis && IsComment(line)
    ensures Step(s, line) == Ok(s)
  {
  }

  /** Outside a capture a directive line first stores the current block and
      returns to TopLevel, whatever the mode was. */
  lemma ImplicitClose(s: PState, line: string)
    requires !s.inHereis && IsDirective(line)
    ensures Step(s, line) == Dispatch(StoreBlock(s).(mode := TopLevel), line)
  {
    DirectiveIsNotComment(line);
  }

  /** Outside a capture, `new-op NAME` stores the previous block and starts an
      untouched block labelled NAME. */
  lemma NewOpStep(s: PState, line: string, name: string)
    requires !s.inHereis && NewOpLabel(line) == Some(name)
    ensures Step(s, line) == Ok(StoreBlock(s).(mode := DefiningBlock, current := Some(EmptyBlock(name))))
  {
    ImplicitClose(s, line);
    StoreBlockTwice(s);
  }

  /** Outside a capture, a `var` line stores the previous block and then sets
      the variable (dir "is"), starts a variable capture (dir "until"), or,
      for any other spelling of the direction, does nothing more: the
      direction is compared case-sensitively though the pattern ignores case. */
  lemma VarStep(s: PState, line: string, m: VarDirective)
    requires !s.inHereis && MatchVar(line) == Some(m)
    ensures var s1 := StoreBlock(s).(mode := TopLevel);
      && (m.dir == "is" ==> Step(s, line) == Ok(s1.(status := s.status[m.name := m.value])))
      && (m.dir == "until" ==>
            Step(s, line) == Ok(s1.(mode := DefiningVar, inHereis := true, varValue := "", varKey := m.name, endToken := m.value)))
      && (m.dir != "is" && m.dir != "until" ==> Step(s, line) == Ok(s1))
  {
    ImplicitClose(s, line);
    VarIsOnlyVar(line);
  }

  /** `var NAME is VALUE` sets NAME to VALUE. */
  lemma VarIsSets(s: PState, name: string, value: string)
    requires !s.inHereis && IsToken(name) && value != [] && !IsSpace(value[0])
    ensures Step(s, "var " + name + " " + "is" + " " + value) ==
      Ok(StoreBlock(s).(mode := TopLevel, status := s.status[name := value]))
  {
    VarRoundTrip(name, "is", value);
    VarStep(s, "var " + name + " " + "is" + " " + value, VarDirective(name, "is", value));
  }

  /** `var NAME IS VALUE` matches the pattern but sets nothing. */
  lemma VarUpperIsIgnored(s: PState, name: string, value: string)
    requires !s.inHereis && IsToken(name) && value != [] && !IsSpace(value[0])
    ensures Step(s, "var " + name + " " + "IS" + " " + value) == Ok(StoreBlock(s).(mode := TopLevel))
  {
    VarRoundTrip(name, "IS", value);
    VarStep(s, "var " + name + " " + "IS" + " " + value, VarDirective(name, "IS", value));
  }

  // ---- inside a block ----

  /** An `exec shell` line in DefiningBlock is handled by ExecShell (it is
      neither a comment nor a directive). */
  lemma ExecShellStep(s: PState, line: string, b: Block)
    requires s.mode == DefiningBlock && !s.inHereis && s.current == Some(b) && IsShellLine(line)
    ensures Step(s, line) == Ok(ExecShell(s, b, line))
  {
    ShellLineIsNotDirective(line);
  }

  /** ExecShell makes the block a touched `sh -sex` operation. The mode is
      the third whitespace-separated field: "until" starts a script capture
      ended by the fourth field, "from" takes the script from the variable
      the fourth field names. An unindented line always has one of those two
      modes; on an indented line the third field is "shell", so nothing
      further happens. */
  lemma ExecShellModes(s: PState, b: Block, line: string)
    requires IsShellLine(line)
    ensures |SplitFields(line, 4)| == 4
    ensures var b1 := b.(touched := true, command := "sh", args := ["-sex"]);
      var parts := SplitFields(line, 4);
      && (LowerString(parts[2]) == "until" ==>
            ExecShell(s, b, line) == s.(current := Some(b1), mode := DefiningScript, inHereis := true, script := "", endToken := parts[3]))
      && (LowerString(parts[2]) == "from" ==>
            ExecShell(s, b, line) == s.(current := Some(b1.(stdin := Lookup(s.status, parts[3])))))
      && (LowerString(parts[2]) != "until" && LowerString(parts[2]) != "from" ==>
            ExecShell(s, b, line) == s.(current := Some(b1)))
      && (!IsSpace(line[0]) ==> LowerString(parts[2]) == "until" || LowerString(parts[2]) == "from")
      && (IsSpace(line[0]) ==> ExecShell(s, b, line) == s.(current := Some(b1)))
  {
    ShellLineFields(line);
    var parts := SplitFields(line, 4);
    KeywordsHaveNoSpace();
    FoldEqLower(parts[2], "until");
    FoldEqLower(parts[2], "from");
    FoldEqLower(parts[2], "shell");
  }

  /** An unindented line starting with `halt-if-fail` (exact case) marks the
      block as halting on failure. */
  lemma HaltIfFailStep(s: PState, line: string, b: Block)
    requires s.mode == DefiningBlock && !s.inHereis && s.current == Some(b)
    requires HasPrefix(line, "halt-if-fail")
    ensures Step(s, line) == Ok(s.(current := Some(b.(haltIfFail := true, touched := true))))
  {
    assert line[0] == 'h';
    SkipNone(line);
    LeadingChar(line);
  }

  /** The same keyword after an indent is an unknown line and is ignored. */
  lemma IndentedHaltIgnored(s: PState, c: char)
    requires s.mode == DefiningBlock && !s.inHereis && IsSpace(c)
    ensures Step(s, [c] + "halt-if-fail") == Ok(s)
  {
    var line := [c] + "halt-if-fail";
    assert line[1..] == "halt-if-fail";
    SkipNone(line[1..]);
    assert SkipSpaces(line) == "halt-if-fail";
    LeadingChar(line);
  }

  // ---- captures ----

  /** Running a sequence of lines is running its halves one after the other. */
  lemma {:induction false} ParseLinesAppend(s: PState, a: seq<string>, b: seq<string>)
    ensures ParseLines(s, a).Err? ==> ParseLines(s, a + b) == ParseLines(s, a)
    ensures ParseLines(s, a).Ok? ==> ParseLines(s, a + b) == ParseLines(ParseLines(s, a).value, b)
    decreases |a|
  {
    if a == [] {
      assert a + b == b;
    } else {
      assert (a + b)[0] == a[0];
      assert (a + b)[1..] == a[1..] + b;
      if Step(s, a[0]).Ok? {
        ParseLinesAppend(Step(s, a[0]).value, a[1..], b);
      }
    }
  }

  /** Inside a script capture every line other than the terminator, comments
      and directives included, is appended to the buffer with a newline. */
  lemma {:induction false} ScriptLines(s: PState, lines: seq<string>)
    requires s.mode == DefiningScript && s.inHereis
    requires forall i :: 0 <= i < |lines| ==> lines[i] != s.endToken
    ensures ParseLines(s, lines) == Ok(s.(script := s.script + Unlines(lines)))
    decreases |lines|
  {
    if lines == [] {
      assert s.script + Unlines(lines) == s.script;
    } else {
      var s1 := s.(script := s.script + lines[0] + "\n");
      assert Step(s, lines[0]) == Ok(s1);
      assert ParseLines(s, lines) == ParseLines(s1, lines[1..]);
      ScriptLines(s1, lines[1..]);
      assert s1.script + Unlines(lines[1..]) == s.script + Unlines(lines);
    }
  }

  /** A whole script hereis: the captured lines become the block's script and
      the parser returns to DefiningBlock. */
  lemma ScriptHereis(s: PState, lines: seq<string>, b: Block)
    requires s.mode == DefiningScript && s.inHereis && s.current == Some(b)
    requires forall i :: 0 <= i < |lines| ==> lines[i] != s.endToken
    ensures ParseLines(s, lines + [s.endToken]) ==
      Ok(s.(current := Some(b.(stdin := s.script + Unlines(lines), touched := true)),
            script := s.script + Unlines(lines), mode := DefiningBlock, inHereis := false))
  {
    ScriptLines(s, lines);
    ParseLinesAppend(s, lines, [s.endToken]);
  }

  /** A script capture still open at the end of the input is dropped: the
      final StoreBlock appends the block with the script it had before. */
  lemma UnterminatedScript(s: PState, lines: seq<string>, b: Block)
    requires s.mode == DefiningScript && s.inHereis && s.current == Some(b) && b.touched
    requires forall i :: 0 <= i < |lines| ==> lines[i] != s.endToken
    ensures ParseLines(s, lines).Ok?
    ensures StoreBlock(ParseLines(s, lines).value).blocks == s.blocks + [Stored(b)]
  {
    ScriptLines(s, lines);
  }

  lemma {:induction false} VarLines(s: PState, lines: seq<string>)
    requires s.mode == DefiningVar && s.inHereis
    requires forall i :: 0 <= i < |lines| ==> lines[i] != s.endToken
    ensures ParseLines(s, lines) == Ok(s.(varValue := s.varValue + Unlines(lines)))
    decreases |lines|
  {
    if lines == [] {
      assert s.varValue + Unlines(lines) == s.varValue;
    } else {
      var s1 := s.(varValue := s.varValue + lines[0] + "\n");
      assert Step(s, lines[0]) == Ok(s1);
      VarLines(s1, lines[1..]);
      assert s1.varValue + Unlines(lines[1..]) == s.varValue + Unlines(lines);
    }
  }

  /** A whole variable hereis: the captured lines become the variable's value
      and the parser goes to DefiningBlock (not TopLevel). */
  lemma VarHereis(s: PState, lines: seq<string>)
    requires s.mode == DefiningVar && s.inHereis
    requires forall i :: 0 <= i < |lines| ==> lines[i] != s.endToken
    ensures ParseLines(s, lines + [s.endToken]) ==
      Ok(s.(status := s.status[s.varKey := s.varValue + Unlines(lines)], varKey := "", varValue := "",
            mode := DefiningBlock, inHereis := false))
  {
    VarLines(s, lines);
    ParseLinesAppend(s, lines, [s.endToken]);
  }
}
