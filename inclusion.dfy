/** Include expansion (Parser.ExpandConfigs and its helpers in
    pkg/monobrew/parser.go): the configuration files are concatenated, then
    every `include-config PATH` line is replaced, pass after pass, by a marker
    comment and the contents PATH names, until no include line is left or the
    pass limit is exceeded. */
module Inclusion {
  import opened Maybe
  import opened Text
  import opened LineSyntax

  /** What reading a path yields: the files that can be opened and the URLs
      that can be fetched, each with its contents. A path missing from its
      map is a read that fails. */
  datatype Sources = Sources(files: map<string, string>, urls: map<string, string>)

  /** The ways expansion stops the program: an unreadable file or URL, an
      include line that no longer matches once trimmed, and too many passes. */
  datatype ExpandError = Unreadable(path: string) | MalformedInclude(line: string) | TooDeep

  /** The number of passes allowed; one more is refused as circular. */
  const MaxPasses: nat := 1000

  /** GetConfigContents: a path starting `http://` or `https://` is fetched,
      any other is read from the file system. */
  function GetConfigContents(src: Sources, path: string): (r: Result<string, ExpandError>)
    ensures IsUrl(path) ==> (r.Ok? <==> path in src.urls) && (r.Ok? ==> r.value == src.urls[path])
    ensures !IsUrl(path) ==> (r.Ok? <==> path in src.files) && (r.Ok? ==> r.value == src.files[path])
    ensures r.Err? ==> r.error == Unreadable(path)
  {
    var m := if IsUrl(path) then src.urls else src.files;
    if path in m then Ok(m[path]) else Err(Unreadable(path))
  }

  /** The comment put in front of the contents an include line is replaced by. */
  function Marker(trimmed: string): string
  {
    "\n# Expanded from: " + trimmed + "\n\n"
  }

  /** The replacement of one line: an include line becomes the marker and the
      contents of the path taken from the trimmed line; any other line stays. */
  function ReplaceLine(src: Sources, line: string): (r: Result<string, ExpandError>)
    ensures IncludePath(line).None? ==> r == Ok(line)
  {
    if IncludePath(line).None? then Ok(line)
    else
      var trimmed := TrimSpace(line);
      match IncludePath(trimmed)
      case None => Err(MalformedInclude(line))
      case Some(path) =>
        match GetConfigContents(src, path)
        case Err(e) => Err(e)
        case Ok(contents) => Ok(Marker(trimmed) + contents)
  }

  /** The replacement function ExpandConfigs hands to ReplaceAllFunc. */
  function Replacer(src: Sources): string -> Result<string, ExpandError>
  {
    line => ReplaceLine(src, line)
  }

  /** Every line handed to f, in order; the first failure ends the pass. */
  function ReplaceAll(f: string -> Result<string, ExpandError>, lines: seq<string>): (r: Result<seq<string>, ExpandError>)
    ensures r.Ok? ==> |r.value| == |lines|
  {
    if lines == [] then Ok([])
    else
      match f(lines[0])
      case Err(e) => Err(e)
      case Ok(first) =>
        match ReplaceAll(f, lines[1..])
        case Err(e) => Err(e)
        case Ok(rest) => Ok([first] + rest)
  }

  /** ReplaceAll succeeds exactly when f accepts every line, and then holds
      each line's replacement at its place; otherwise it reports the failure
      of the first line f refuses. */
  lemma {:induction false} ReplaceAllMeaning(f: string -> Result<string, ExpandError>, lines: seq<string>)
    ensures ReplaceAll(f, lines).Ok? <==> forall i :: 0 <= i < |lines| ==> f(lines[i]).Ok?
    ensures ReplaceAll(f, lines).Ok? ==>
      forall i :: 0 <= i < |lines| ==> f(lines[i]) == Ok(ReplaceAll(f, lines).value[i])
    ensures ReplaceAll(f, lines).Err? ==>
      exists k :: 0 <= k < |lines| && f(lines[k]) == Err(ReplaceAll(f, lines).error)
                  && forall i :: 0 <= i < k ==> f(lines[i]).Ok?
  {
    if lines != [] {
      var tail := lines[1..];
      ReplaceAllMeaning(f, tail);
      assert forall i :: 0 <= i < |tail| ==> tail[i] == lines[i + 1];
      if f(lines[0]).Ok? && ReplaceAll(f, tail).Err? {
        var k :| 0 <= k < |tail| && f(tail[k]) == Err(ReplaceAll(f, tail).error)
                 && forall i :: 0 <= i < k ==> f(tail[i]).Ok?;
        assert f(lines[k + 1]) == Err(ReplaceAll(f, lines).error);
        forall i | 0 <= i < k + 1
          ensures f(lines[i]).Ok?
        {
          if i > 0 { assert lines[i] == tail[i - 1]; }
        }
      }
      if ReplaceAll(f, lines).Ok? {
        forall i | 0 <= i < |lines|
          ensures f(lines[i]) == Ok(ReplaceAll(f, lines).value[i])
        {
          if i > 0 { assert lines[i] == tail[i - 1]; }
        }
      }
    }
  }

  /** One ReplaceAllFunc pass over the whole text. */
  function Pass(src: Sources, text: string): Result<string, ExpandError>
  {
    match ReplaceAll(Replacer(src), Split(text, '\n'))
    case Err(e) => Err(e)
    case Ok(lines) => Ok(Join(lines, '\n'))
  }

  /** Some line of text is an include line. */
  predicate HasInclude(text: string)
  {
    var lines := Split(text, '\n');
    exists i :: 0 <= i < |lines| && IncludePath(lines[i]).Some?
  }

  /** A pass over the whole text, as a value. */
  type Passer = string -> Result<string, ExpandError>

  /** The pass ExpandConfigs makes with the given sources. */
  function PassOf(src: Sources): Passer
  {
    text => Pass(src, text)
  }

  /** The expansion loop, entered with `loops` passes already made: a pass is
      always made first, and the loop ends once a pass leaves no include
      line. */
  function Expand(pass: Passer, text: string, loops: nat): (r: Result<string, ExpandError>)
    requires loops <= MaxPasses
    decreases MaxPasses - loops
  {
    if loops + 1 > MaxPasses then Err(TooDeep)
    else
      match pass(text)
      case Err(e) => Err(e)
      case Ok(t) => if HasInclude(t) then Expand(pass, t, loops + 1) else Ok(t)
  }

  /** AppendConfigToExpanded over the first files, in order. */
  function Concatenated(src: Sources, files: seq<string>): Result<string, ExpandError>
  {
    if files == [] then Ok("")
    else
      match Concatenated(src, files[..|files| - 1])
      case Err(e) => Err(e)
      case Ok(t) =>
        match GetConfigContents(src, files[|files| - 1])
        case Err(e) => Err(e)
        case Ok(contents) => Ok(t + contents)
  }

  /** ExpandConfigs: what ConfigExpanded ends up holding. */
  function ExpandConfigs(src: Sources, files: seq<string>): Result<string, ExpandError>
  {
    match Concatenated(src, files)
    case Err(e) => Err(e)
    case Ok(t) => Expand(PassOf(src), t, 0)
  }

  // ---- lemmas ----

  /** A pass over text without include lines gives the text back unchanged. */
  lemma PassWithoutInclude(src: Sources, text: string)
    requires !HasInclude(text)
    ensures Pass(src, text) == Ok(text)
  {
    var lines := Split(text, '\n');
    NoIncludeLines(src, lines);
    JoinSplit(text, '\n');
  }

  /** Lines without includes are replaced by themselves. */
  lemma NoIncludeLines(src: Sources, lines: seq<string>)
    requires forall i :: 0 <= i < |lines| ==> IncludePath(lines[i]).None?
    ensures ReplaceAll(Replacer(src), lines) == Ok(lines)
  {
    Unchanged(Replacer(src), lines);
  }

  /** Lines f maps to themselves pass through ReplaceAll unchanged. */
  lemma {:induction false} Unchanged(f: string -> Result<string, ExpandError>, lines: seq<string>)
    requires forall i :: 0 <= i < |lines| ==> f(lines[i]) == Ok(lines[i])
    ensures ReplaceAll(f, lines) == Ok(lines)
  {
    if lines != [] {
      Unchanged(f, lines[1..]);
      assert [lines[0]] + lines[1..] == lines;
    }
  }

  /** Text that holds no include line comes out of expansion unchanged after
      a single pass. */
  lemma ExpandWithoutInclude(src: Sources, text: string, loops: nat)
    requires loops < MaxPasses && !HasInclude(text)
    ensures Expand(PassOf(src), text, loops) == Ok(text)
  {
    PassWithoutInclude(src, text);
  }

  /** Whatever expansion produces holds no include line. */
  lemma {:induction false} ExpandedHasNoInclude(pass: Passer, text: string, loops: nat)
    requires loops <= MaxPasses
    requires Expand(pass, text, loops).Ok?
    ensures !HasInclude(Expand(pass, text, loops).value)
    decreases MaxPasses - loops
  {
    assert loops < MaxPasses && pass(text).Ok?;
    var t := pass(text).value;
    if HasInclude(t) {
      ExpandStep(pass, text, loops);
      ExpandedHasNoInclude(pass, t, loops + 1);
    } else {
      ExpandLast(pass, text, loops);
    }
  }

  /** Expansion never ends in success after a failed pass: an unreadable
      include anywhere in the first pass is an error of the whole expansion. */
  lemma ExpandFailsWithPass(pass: Passer, text: string, loops: nat)
    requires loops < MaxPasses && pass(text).Err?
    ensures Expand(pass, text, loops) == Err(pass(text).error)
  {
  }

  /** The contents of all files, in order, when every one can be read. */
  lemma {:induction false} ConcatenatedReadable(src: Sources, files: seq<string>)
    requires forall i :: 0 <= i < |files| ==> GetConfigContents(src, files[i]).Ok?
    ensures Concatenated(src, files).Ok?
    ensures |files| > 0 ==>
      Concatenated(src, files).value
      == Concatenated(src, files[..|files| - 1]).value + GetConfigContents(src, files[|files| - 1]).value
  {
    if files != [] {
      var init := files[..|files| - 1];
      assert forall i :: 0 <= i < |init| ==> init[i] == files[i];
      ConcatenatedReadable(src, init);
    }
  }

  /** A failure among the first k files is the failure of all of them. */
  lemma {:induction false} ConcatenatedPrefixFails(src: Sources, files: seq<string>, k: nat)
    requires k <= |files| && Concatenated(src, files[..k]).Err?
    ensures Concatenated(src, files) == Concatenated(src, files[..k])
    decreases |files| - k
  {
    if k < |files| {
      assert files[..k + 1][..k] == files[..k];
      ConcatenatedPrefixFails(src, files, k + 1);
    } else {
      assert files[..k] == files;
    }
  }

  /** The first file that cannot be read makes the whole concatenation fail. */
  lemma {:induction false} ConcatenatedUnreadable(src: Sources, files: seq<string>, k: nat)
    requires k < |files| && GetConfigContents(src, files[k]).Err?
    requires forall i :: 0 <= i < k ==> GetConfigContents(src, files[i]).Ok?
    ensures Concatenated(src, files) == Err(Unreadable(files[k]))
  {
    var init := files[..|files| - 1];
    if k < |files| - 1 {
      assert init[k] == files[k];
      assert forall i :: 0 <= i < k ==> init[i] == files[i];
      ConcatenatedUnreadable(src, init, k);
    } else {
      assert forall i :: 0 <= i < |init| ==> init[i] == files[i];
      ConcatenatedReadable(src, init);
    }
  }

  // ---- a file that includes itself ----

  /** The include line naming path. */
  function IncludeLine(path: string): string
  {
    "include-config " + path
  }

  lemma TrimSpaceKeeps(s: string)
    requires s != [] && !IsUnicodeSpace(s[0]) && !IsUnicodeSpace(s[|s| - 1])
    ensures TrimSpace(s) == s
  {
  }

  /** A line that starts with neither a \s character nor `i` or `I` is not an
      include line. */
  lemma NotIncludeLine(line: string)
    requires line == [] || (!IsSpace(line[0]) && Lower(line[0]) != 'i')
    ensures IncludePath(line).None?
  {
    if line != [] {
      assert SkipSpaces(line) == line;
      assert "include-config"[0] == 'i';
    }
  }

  lemma {:induction false} JoinSnoc(xs: seq<string>, last: string, sep: char)
    ensures Join(xs + [last], sep) == if xs == [] then last else Join(xs, sep) + [sep] + last
  {
    if |xs| > 1 {
      assert (xs + [last])[1..] == xs[1..] + [last];
      JoinSnoc(xs[1..], last, sep);
    } else if |xs| == 1 {
      assert (xs + [last])[1..] == [last];
    }
  }

  /** ReplaceAll over lines f keeps, followed by one more line. */
  lemma {:induction false} ReplaceAllSnoc(f: string -> Result<string, ExpandError>, ls: seq<string>, x: string)
    requires forall i :: 0 <= i < |ls| ==> f(ls[i]) == Ok(ls[i])
    requires f(x).Ok?
    ensures ReplaceAll(f, ls + [x]) == Ok(ls + [f(x).value])
  {
    if ls == [] {
      assert ls + [x] == [x];
      assert [x][1..] == [];
      assert ReplaceAll(f, []) == Ok([]);
      assert ReplaceAll(f, [x]) == Ok([f(x).value] + []);
      assert ls + [f(x).value] == [f(x).value] + [];
    } else {
      assert (ls + [x])[0] == ls[0];
      assert (ls + [x])[1..] == ls[1..] + [x];
      ReplaceAllSnoc(f, ls[1..], x);
      assert [ls[0]] + (ls[1..] + [f(x).value]) == ls + [f(x).value];
    }
  }

  /** An include line written with a path is a single line. */
  lemma IncludeLineOneLine(path: string)
    requires IsToken(path)
    ensures '\n' !in IncludeLine(path)
  {
    var l := IncludeLine(path);
    var kw := "include-config ";
    assert '\n' !in kw;
    forall i | 0 <= i < |l|
      ensures l[i] != '\n'
    {
      if i < |kw| {
        assert l[i] == kw[i];
      } else {
        assert l[i] == path[i - |kw|];
      }
    }
  }

  /** A file whose whole contents is an include of itself. The path is read
      from the file system and ends in a character TrimSpace keeps. */
  predicate SelfIncluding(src: Sources, path: string)
  {
    && IsToken(path) && !IsUrl(path) && !IsUnicodeSpace(path[|path| - 1])
    && path in src.files && src.files[path] == IncludeLine(path)
  }

  /** The lines a pass leaves in front of the self-include it brings back. */
  function MarkerLines(path: string): seq<string>
  {
    ["", "# Expanded from: " + IncludeLine(path), ""]
  }

  lemma MarkerJoin(ls: seq<string>, path: string)
    ensures Join(ls + [Marker(IncludeLine(path)) + IncludeLine(path)], '\n')
         == Join(ls + MarkerLines(path) + [IncludeLine(path)], '\n')
  {
    var l := IncludeLine(path);
    var c := "# Expanded from: " + l;
    assert "\n# Expanded from: " == ['\n'] + "# Expanded from: ";
    assert "\n\n" == ['\n'] + ['\n'];
    assert Marker(l) + l == ['\n'] + c + ['\n'] + ['\n'] + l;
    assert MarkerLines(path) == ["", c, ""];
    JoinBlankAround(ls, c, l, '\n');
  }

  /** A piece holding a line between two blank lines, joined after ls, is the
      same text as those lines joined one by one. */
  lemma JoinBlankAround(ls: seq<string>, c: string, l: string, sep: char)
    ensures Join(ls + [[sep] + c + [sep] + [sep] + l], sep) == Join(ls + ["", c, ""] + [l], sep)
  {
    var x := [sep] + c + [sep] + [sep] + l;
    var ja := Join(ls + [""], sep);
    JoinThreeAfter(ls, c, l, sep);
    JoinSnoc(ls, "", sep);
    JoinSnoc(ls, x, sep);
    if ls != [] {
      assert ja + [sep] + c + [sep] + [sep] + l == Join(ls, sep) + [sep] + x;
    }
  }

  /** The lines c, "" and l joined after ls + [""]. */
  lemma JoinThreeAfter(ls: seq<string>, c: string, l: string, sep: char)
    ensures Join(ls + ["", c, ""] + [l], sep) == Join(ls + [""], sep) + [sep] + c + [sep] + [sep] + l
  {
    var a := ls + [""];
    var b := a + [c];
    var d := b + [""];
    assert ls + ["", c, ""] + [l] == d + [l];
    JoinSnoc(d, l, sep);
    JoinSnoc(b, "", sep);
    JoinSnoc(a, c, sep);
  }

  /** The self-include line becomes the marker and the self-include again. */
  lemma SelfIncludeReplaced(src: Sources, path: string)
    requires SelfIncluding(src, path)
    ensures Replacer(src)(IncludeLine(path)) == Ok(Marker(IncludeLine(path)) + IncludeLine(path))
  {
    var l := IncludeLine(path);
    assert l[0] == 'i';
    TrimSpaceKeeps(l);
    IncludeRoundTrip(path);
  }

  /** One pass over plain lines ending in the self-include: the include line is
      replaced by the marker and, again, the self-include. */
  lemma SelfIncludePass(src: Sources, path: string, ls: seq<string>)
    requires SelfIncluding(src, path)
    requires forall i :: 0 <= i < |ls| ==> '\n' !in ls[i] && IncludePath(ls[i]).None?
    ensures Pass(src, Join(ls + [IncludeLine(path)], '\n'))
         == Ok(Join(ls + MarkerLines(path) + [IncludeLine(path)], '\n'))
  {
    var l := IncludeLine(path);
    IncludeLineOneLine(path);
    SplitJoin(ls + [l], '\n');
    SelfIncludeReplaced(src, path);
    ReplaceAllSnoc(Replacer(src), ls, l);
    MarkerJoin(ls, path);
  }

  /** The lines in front of the self-include stay free of includes and
      newlines from one pass to the next. */
  lemma MarkerLinesPlain(path: string, ls: seq<string>)
    requires IsToken(path)
    requires forall i :: 0 <= i < |ls| ==> '\n' !in ls[i] && IncludePath(ls[i]).None?
    ensures forall i :: 0 <= i < |ls + MarkerLines(path)| ==>
      '\n' !in (ls + MarkerLines(path))[i] && IncludePath((ls + MarkerLines(path))[i]).None?
  {
    var c := "# Expanded from: " + IncludeLine(path);
    NotIncludeLine("");
    NotIncludeLine(c);
    IncludeLineOneLine(path);
  }

  /** A pass that leaves an include line is followed by another pass. */
  lemma ExpandStep(pass: Passer, text: string, loops: nat)
    requires loops < MaxPasses && pass(text).Ok? && HasInclude(pass(text).value)
    ensures Expand(pass, text, loops) == Expand(pass, pass(text).value, loops + 1)
  {
  }

  /** A pass that leaves no include line is the last one. */
  lemma ExpandLast(pass: Passer, text: string, loops: nat)
    requires loops < MaxPasses && pass(text).Ok? && !HasInclude(pass(text).value)
    ensures Expand(pass, text, loops) == pass(text)
  {
  }

  /** Plain lines followed by the self-include still hold an include line. */
  lemma SelfIncludeRemains(path: string, ls: seq<string>)
    requires IsToken(path)
    requires forall i :: 0 <= i < |ls| ==> '\n' !in ls[i]
    ensures HasInclude(Join(ls + [IncludeLine(path)], '\n'))
  {
    var l := IncludeLine(path);
    IncludeLineOneLine(path);
    SplitJoin(ls + [l], '\n');
    assert (ls + [l])[|ls|] == l;
    IncludeRoundTrip(path);
  }

  /** The text after some passes over a self-including file: lines free of
      includes, then the self-include. */
  function SelfText(path: string, ls: seq<string>): string
  {
    Join(ls + [IncludeLine(path)], '\n')
  }

  predicate PlainLines(ls: seq<string>)
  {
    forall i :: 0 <= i < |ls| ==> '\n' !in ls[i] && IncludePath(ls[i]).None?
  }

  /** One more pass over such a text gives another such text. */
  lemma SelfIncludeNext(src: Sources, path: string, ls: seq<string>)
    requires SelfIncluding(src, path) && PlainLines(ls)
    ensures PlainLines(ls + MarkerLines(path))
    ensures Pass(src, SelfText(path, ls)) == Ok(SelfText(path, ls + MarkerLines(path)))
    ensures HasInclude(SelfText(path, ls + MarkerLines(path)))
  {
    SelfIncludePass(src, path, ls);
    MarkerLinesPlain(path, ls);
    SelfIncludeRemains(path, ls + MarkerLines(path));
  }

  /** A self-including file keeps bringing its include back, so expansion
      fails once the pass limit is exceeded, whatever pass it starts from. */
  lemma {:induction false} SelfIncludeTooDeep(src: Sources, path: string, ls: seq<string>, loops: nat)
    requires SelfIncluding(src, path) && loops <= MaxPasses && PlainLines(ls)
    ensures Expand(PassOf(src), SelfText(path, ls), loops) == Err(TooDeep)
    decreases MaxPasses - loops
  {
    if loops + 1 <= MaxPasses {
      SelfIncludeNext(src, path, ls);
      ExpandStep(PassOf(src), SelfText(path, ls), loops);
      SelfIncludeTooDeep(src, path, ls + MarkerLines(path), loops + 1);
    }
  }

  /** Naming a self-including file on the command line ends in the circular
      include error. */
  lemma SelfIncludeFails(src: Sources, path: string)
    requires SelfIncluding(src, path)
    ensures ExpandConfigs(src, [path]) == Err(TooDeep)
  {
    var l := IncludeLine(path);
    assert [path][..0] == [];
    assert "" + l == l;
    assert Concatenated(src, [path]) == Ok(l);
    assert [] + [l] == [l];
    assert Join([l], '\n') == l;
    assert SelfText(path, []) == l;
    SelfIncludeTooDeep(src, path, [], 0);
  }
}
