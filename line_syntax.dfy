/** The five line patterns of pkg/monobrew/parser.go (commentRe, includeRe,
    newOpRe, shellRe, varRe) and the URL test of GetConfigContents, written
    as predicates over one line (a line never holds a newline). Keywords
    match ignoring ASCII case, as the (?i) flag makes them. */
module LineSyntax {
  import opened Text
  import opened Maybe

  /** `^\s*(#|//)` */
  predicate IsComment(line: string)
  {
    var r := SkipSpaces(line);
    HasPrefix(r, "#") || HasPrefix(r, "//")
  }

  /** s begins with keyword kw followed by at least one \s; the result is what
      follows those spaces (the `kw\s+` step of a pattern). */
  function AfterKeyword(s: string, kw: string): (r: Option<string>)
    ensures r.Some? ==> |r.value| < |s| && HasPrefixFold(s, kw)
    ensures r.Some? ==> r.value == [] || !IsSpace(r.value[0])
  {
    if HasPrefixFold(s, kw) && |kw| < |s| && IsSpace(s[|kw|]) then Some(SkipSpaces(s[|kw|..]))
    else None
  }

  /** `(?i)^\s*new-op\s+(\S+)`: the operation name the pattern captures, if it matches. */
  function NewOpLabel(line: string): (name: Option<string>)
    ensures name.Some? ==> IsToken(name.value)
  {
    match AfterKeyword(SkipSpaces(line), "new-op")
    case None => None
    case Some(rest) => if rest == [] then None else Some(Token(rest))
  }

  /** `(?i)^\s*exec\s+shell\s+(from|until)\s+(\S+)` */
  predicate IsShellLine(line: string)
  {
    match AfterKeyword(SkipSpaces(line), "exec")
    case None => false
    case Some(r1) => IsShellTail(r1)
  }

  /** `shell\s+(from|until)\s+(\S+)`, the part after `exec\s+`. */
  predicate IsShellTail(r1: string)
  {
    match AfterKeyword(r1, "shell")
    case None => false
    case Some(r2) => IsModeTail(r2)
  }

  /** `(from|until)\s+(\S+)` */
  predicate IsModeTail(r2: string)
  {
    var r3 := if AfterKeyword(r2, "from").Some? then AfterKeyword(r2, "from") else AfterKeyword(r2, "until");
    r3.Some? && r3.value != []
  }

  /** The three groups varRe captures. dir keeps the case it was written in. */
  datatype VarDirective = VarDirective(name: string, dir: string, value: string)

  /** `(?i)^\s*var\s+(\S+)\s+(is|until)\s+(.+)`. The name is the first token
      after var; dir is "is" or "until" in any case and must be followed by
      \s; the value is the rest of the line after that run of \s, or, when
      nothing but \s follows dir, the last of at least two \s characters
      (the backtracking `\s+(.+)` does that). */
  function MatchVar(line: string): (m: Option<VarDirective>)
    ensures m.Some? ==> m.value.name != [] && m.value.value != []
  {
    match AfterKeyword(SkipSpaces(line), "var")
    case None => None
    case Some(r1) =>
      var name := Token(r1);
      var afterName := r1[|name|..];
      if name == [] || afterName == [] then None
      else
        match DirAndValue(SkipSpaces(afterName))
        case None => None
        case Some(dv) => Some(VarDirective(name, dv.0, dv.1))
  }

  /** The `(is|until)\s+(.+)` tail of varRe, on the text after the name. */
  function DirAndValue(r2: string): (dv: Option<(string, string)>)
    ensures dv.Some? ==> dv.value.1 != []
  {
    var dirLen := if HasPrefixFold(r2, "is") then 2 else if HasPrefixFold(r2, "until") then 5 else 0;
    var rest := r2[dirLen..];
    if dirLen == 0 || rest == [] || !IsSpace(rest[0]) then None
    else
      var tail := SkipSpaces(rest);
      if tail != [] then Some((r2[..dirLen], tail))
      else if |rest| >= 2 then Some((r2[..dirLen], rest[|rest| - 1..]))
      else None
  }

  /** A line outside a capture that closes the block being defined. */
  predicate IsDirective(line: string)
  {
    NewOpLabel(line).Some? || MatchVar(line).Some?
  }

  /** `(?mi)^\s*include-config\s+(\S+)$` on one line: the path it captures.
      The path must run to the end of the line. */
  function IncludePath(line: string): (path: Option<string>)
    ensures path.Some? ==> IsToken(path.value)
  {
    match AfterKeyword(SkipSpaces(line), "include-config")
    case None => None
    case Some(rest) => if rest != [] && Token(rest) == rest then Some(rest) else None
  }

  /** `^https?://`: the reference is fetched over HTTP rather than read from a file. */
  predicate IsUrl(path: string)
  {
    HasPrefix(path, "http://") || HasPrefix(path, "https://")
  }

  // ---- writing a directive and reading it back ----

  predicate IsToken(t: string)
  {
    t != [] && forall i :: 0 <= i < |t| ==> !IsSpace(t[i])
  }

  lemma {:induction false} SkipNone(s: string)
    requires s == [] || !IsSpace(s[0])
    ensures SkipSpaces(s) == s
  {
  }

  lemma {:induction false} TokenWhole(t: string)
    requires forall i :: 0 <= i < |t| ==> !IsSpace(t[i])
    ensures Token(t) == t
  {
    if t != [] {
      TokenWhole(t[1..]);
      assert [t[0]] + t[1..] == t;
    }
  }

  lemma KeywordThenSpace(kw: string, s: string)
    requires NoUpper(kw)
    requires s == [] || !IsSpace(s[0])
    ensures AfterKeyword(kw + " " + s, kw) == Some(s)
  {
    var line := kw + " " + s;
    assert line[..|kw|] == kw;
    assert forall i :: 0 <= i < |kw| ==> Lower(line[i]) == kw[i];
    assert line[|kw|..] == " " + s;
    assert (" " + s)[1..] == s;
  }

  /** A `new-op` line written with a name is read back as that name. */
  lemma NewOpRoundTrip(name: string)
    requires IsToken(name)
    ensures NewOpLabel("new-op " + name) == Some(name)
  {
    assert NoUpper("new-op");
    SkipNone("new-op " + name);
    KeywordThenSpace("new-op", name);
    TokenWhole(name);
  }

  /** An `include-config` line written with a path is read back as that path. */
  lemma IncludeRoundTrip(path: string)
    requires IsToken(path)
    ensures IncludePath("include-config " + path) == Some(path)
  {
    assert NoUpper("include-config");
    SkipNone("include-config " + path);
    KeywordThenSpace("include-config", path);
    TokenWhole(path);
  }

  lemma FoldPrefix(d: string, kw: string, x: string)
    requires FoldEq(d, kw)
    ensures HasPrefixFold(d + x, kw)
  {
    assert forall i :: 0 <= i < |d| ==> (d + x)[i] == d[i];
  }

  lemma SpaceThen(s: string)
    requires s == [] || !IsSpace(s[0])
    ensures SkipSpaces(" " + s) == s
  {
    assert (" " + s)[1..] == s;
  }

  lemma MatchVarParts(line: string, r1: string, name: string, r2: string, dir: string, value: string)
    requires AfterKeyword(SkipSpaces(line), "var") == Some(r1)
    requires name != [] && Token(r1) == name && |name| < |r1|
    requires SkipSpaces(r1[|name|..]) == r2 && DirAndValue(r2) == Some((dir, value))
    ensures MatchVar(line) == Some(VarDirective(name, dir, value))
  {
  }

  /** The two spellings of the `is` direction the lemmas below use. */
  predicate IsDir(dir: string)
  {
    dir == "is" || dir == "IS"
  }

  lemma VarKeyword(name: string, dir: string, value: string)
    requires IsToken(name)
    ensures AfterKeyword(SkipSpaces("var " + name + " " + dir + " " + value), "var")
      == Some(name + (" " + dir + " " + value))
  {
    var r1 := name + (" " + dir + " " + value);
    var line := "var " + name + " " + dir + " " + value;
    assert line == "var" + " " + r1;
    assert NoUpper("var");
    SkipNone(line);
    KeywordThenSpace("var", r1);
  }

  lemma IsValue(dir: string, value: string)
    requires IsDir(dir) && value != [] && !IsSpace(value[0])
    ensures DirAndValue(dir + " " + value) == Some((dir, value))
  {
    var r2 := dir + " " + value;
    assert r2 == dir + (" " + value);
    assert FoldEq(dir, "is");
    FoldPrefix(dir, "is", " " + value);
    assert r2[..2] == dir && r2[2..] == " " + value;
    SpaceThen(value);
  }

  /** `var NAME is VALUE` is read back as its name, the direction as written
      and its value when the value does not begin with \s; the direction
      matches in either case. */
  lemma VarRoundTrip(name: string, dir: string, value: string)
    requires IsToken(name) && IsDir(dir) && value != [] && !IsSpace(value[0])
    ensures MatchVar("var " + name + " " + dir + " " + value) == Some(VarDirective(name, dir, value))
  {
    var line := "var " + name + " " + dir + " " + value;
    var r1 := name + (" " + dir + " " + value);
    var r2 := dir + " " + value;
    VarKeyword(name, dir, value);
    TokenPrefix(name, " " + dir + " " + value);
    assert r1[|name|..] == " " + dir + " " + value == " " + r2;
    SpaceThen(r2);
    IsValue(dir, value);
    MatchVarParts(line, r1, name, r2, dir, value);
  }

  // ---- how regexp `\s+`.Split(line, 4) cuts an `exec shell` line ----

  /** kw holds no \s character. */
  predicate NoSpace(kw: string)
  {
    forall i :: 0 <= i < |kw| ==> !IsSpace(kw[i])
  }

  lemma KeywordsHaveNoSpace()
    ensures NoSpace("exec") && NoSpace("shell") && NoSpace("from") && NoSpace("until")
    ensures NoUpper("shell") && NoUpper("from") && NoUpper("until")
  {
  }

  /** A keyword followed by \s is the first field of the split; the rest is
      split from what follows the spaces. */
  lemma {:induction false} KeywordSplit(s: string, kw: string, r: string, n: nat)
    requires n >= 2 && kw != [] && NoSpace(kw) && AfterKeyword(s, kw) == Some(r)
    ensures SplitFields(s, n) == [s[..|kw|]] + SplitFields(r, n - 1)
  {
    var head := s[..|kw|];
    assert forall i :: 0 <= i < |head| ==> !IsSpace(head[i]) by {
      forall i | 0 <= i < |head|
        ensures !IsSpace(head[i])
      {
        assert Lower(s[i]) == kw[i];
      }
    }
    assert s == head + s[|kw|..];
    TokenPrefix(head, s[|kw|..]);
  }

  /** x equals kw ignoring ASCII case. */
  predicate FoldEq(x: string, kw: string)
  {
    |x| == |kw| && HasPrefixFold(x, kw)
  }

  /** Against a lower-case keyword, equality ignoring case is strings.ToLower equality. */
  lemma FoldEqLower(x: string, kw: string)
    requires NoUpper(kw)
    ensures FoldEq(x, kw) <==> LowerString(x) == kw
  {
  }

  lemma AfterKeywordFold(s: string, kw: string, r: string)
    requires AfterKeyword(s, kw) == Some(r)
    ensures |kw| <= |s| && FoldEq(s[..|kw|], kw)
  {
  }

  /** The leading run of \s becomes an empty first field. */
  lemma IndentSplit(line: string, n: nat)
    requires n >= 2 && line != [] && IsSpace(line[0])
    ensures SplitFields(line, n) == [[]] + SplitFields(SkipSpaces(line), n - 1)
  {
    assert Token(line) == [];
    assert line[0..] == line;
  }

  /** The fields of an unindented `k0\s+k1\s+k2\s+REST`. */
  lemma PlainShellSplit(line: string, k0: string, r1: string, k1: string, r2: string, k2: string, r3: string)
    requires line != [] && !IsSpace(line[0]) && r3 != []
    requires k0 != [] && k1 != [] && k2 != [] && NoSpace(k0) && NoSpace(k1) && NoSpace(k2)
    requires AfterKeyword(line, k0) == Some(r1)
    requires AfterKeyword(r1, k1) == Some(r2) && AfterKeyword(r2, k2) == Some(r3)
    ensures SplitFields(line, 4) == [line[..|k0|], r1[..|k1|], r2[..|k2|], r3]
  {
    KeywordSplit(line, k0, r1, 4);
    TwoKeywordSplit(r1, k1, r2, k2, r3);
  }

  /** `k1\s+k2\s+REST` in three fields. */
  lemma TwoKeywordSplit(r1: string, k1: string, r2: string, k2: string, r3: string)
    requires k1 != [] && k2 != [] && NoSpace(k1) && NoSpace(k2) && r3 != []
    requires AfterKeyword(r1, k1) == Some(r2) && AfterKeyword(r2, k2) == Some(r3)
    ensures SplitFields(r1, 3) == [r1[..|k1|], r2[..|k2|], r3]
  {
    KeywordSplit(r1, k1, r2, 3);
    KeywordSplit(r2, k2, r3, 2);
  }

  /** The fields of an indented `k0\s+k1\s+REST`: the indent is an empty field. */
  lemma IndentedShellSplit(line: string, k0: string, r1: string, k1: string, r2: string)
    requires line != [] && IsSpace(line[0])
    requires k0 != [] && k1 != [] && NoSpace(k0) && NoSpace(k1)
    requires AfterKeyword(SkipSpaces(line), k0) == Some(r1) && AfterKeyword(r1, k1) == Some(r2)
    ensures SplitFields(line, 4) == [[], SkipSpaces(line)[..|k0|], r1[..|k1|], r2]
  {
    IndentSplit(line, 4);
    KeywordsThenRest(SkipSpaces(line), k0, r1, k1, r2);
  }

  /** `k0\s+k1\s+REST` in three fields, REST unsplit. */
  lemma KeywordsThenRest(r0: string, k0: string, r1: string, k1: string, r2: string)
    requires k0 != [] && k1 != [] && NoSpace(k0) && NoSpace(k1)
    requires AfterKeyword(r0, k0) == Some(r1) && AfterKeyword(r1, k1) == Some(r2)
    ensures SplitFields(r0, 3) == [r0[..|k0|], r1[..|k1|], r2]
  {
    KeywordSplit(r0, k0, r1, 3);
    KeywordSplit(r1, k1, r2, 2);
  }

  /** A line shellRe matches always splits into four fields, so the third and
      fourth fields the parser reads exist. Unindented, the third field is
      the mode (from or until, in any case); indented, the split yields an
      empty first field and the third field is "shell" (in any case). */
  lemma ShellLineFields(line: string)
    requires IsShellLine(line)
    ensures |SplitFields(line, 4)| == 4
    ensures !IsSpace(line[0]) ==>
      FoldEq(SplitFields(line, 4)[2], "from") || FoldEq(SplitFields(line, 4)[2], "until")
    ensures IsSpace(line[0]) ==> FoldEq(SplitFields(line, 4)[2], "shell")
  {
    KeywordsHaveNoSpace();
    var r1 := AfterKeyword(SkipSpaces(line), "exec").value;
    var r2 := AfterKeyword(r1, "shell").value;
    var kw := if AfterKeyword(r2, "from").Some? then "from" else "until";
    var r3 := AfterKeyword(r2, kw).value;
    if IsSpace(line[0]) {
      IndentedShellSplit(line, "exec", r1, "shell", r2);
      AfterKeywordFold(r1, "shell", r2);
    } else {
      PlainShellSplit(line, "exec", r1, "shell", r2, kw, r3);
      AfterKeywordFold(r2, kw, r3);
    }
  }
}
