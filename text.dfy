/** String helpers with the meaning Go's standard library gives them in the
    monobrew sources: the regexp class \s, strings.HasPrefix, strings.Count,
    strings.TrimRight, strings.TrimSpace, strings.Contains, the regexp
    `\s+` Split, bufio.ScanLines and the %d / %05d verbs of fmt. */
module Text {

  /** The characters Go's regexp class \s matches: tab, newline, form feed,
      carriage return and space (vertical tab is not among them). */
  predicate IsSpace(c: char)
  {
    c == '\t' || c == '\n' || c == '\U{0C}' || c == '\r' || c == ' '
  }

  /** unicode.IsSpace, the test strings.TrimSpace uses. */
  predicate IsUnicodeSpace(c: char)
  {
    IsSpace(c) || c == '\U{0B}' || c == '\U{85}' || c == '\U{A0}' || c == '\U{1680}'
    || ('\U{2000}' <= c <= '\U{200A}') || c == '\U{2028}' || c == '\U{2029}'
    || c == '\U{202F}' || c == '\U{205F}' || c == '\U{3000}'
  }

  predicate HasPrefix(s: string, p: string)
  {
    |p| <= |s| && s[..|p|] == p
  }

  /** ASCII lower-casing; the case folding of the (?i) regexp flag and of
      strings.ToLower on the keywords this model meets. */
  function Lower(c: char): char
  {
    if 'A' <= c <= 'Z' then (c as int + 32) as char else c
  }

  function LowerString(s: string): (r: string)
    ensures |r| == |s|
    ensures forall i :: 0 <= i < |s| ==> r[i] == Lower(s[i])
  {
    seq(|s|, i requires 0 <= i < |s| => Lower(s[i]))
  }

  /** kw has no upper-case ASCII letter, so Lower leaves it as it is. */
  predicate NoUpper(kw: string)
  {
    forall i :: 0 <= i < |kw| ==> !('A' <= kw[i] <= 'Z')
  }

  /** s begins with the lower-case keyword kw, ignoring ASCII case. */
  predicate HasPrefixFold(s: string, kw: string)
  {
    |kw| <= |s| && forall i {:trigger Lower(s[i])} :: 0 <= i < |kw| ==> Lower(s[i]) == kw[i]
  }

  /** What is left of s once its leading \s characters are dropped. */
  function SkipSpaces(s: string): (r: string)
    ensures |r| <= |s|
    ensures r == [] || !IsSpace(r[0])
    ensures forall i :: 0 <= i < |s| - |r| ==> IsSpace(s[i])
    ensures |s| > 0 && IsSpace(s[0]) ==> |r| < |s|
    ensures s == [] || !IsSpace(s[0]) ==> r == s
  {
    if s != [] && IsSpace(s[0]) then SkipSpaces(s[1..]) else s
  }

  /** The longest prefix of s holding no \s character (what \S+ takes). */
  function Token(s: string): (t: string)
    ensures |t| <= |s| && t == s[..|t|]
    ensures forall i :: 0 <= i < |t| ==> !IsSpace(t[i])
    ensures |t| == |s| || IsSpace(s[|t|])
  {
    if s == [] || IsSpace(s[0]) then [] else [s[0]] + Token(s[1..])
  }

  /** strings.Count for a one-character separator. */
  function Count(s: string, c: char): nat
  {
    if s == [] then 0 else (if s[0] == c then 1 else 0) + Count(s[1..], c)
  }

  lemma {:induction false} CountConcat(a: string, b: string, c: char)
    ensures Count(a + b, c) == Count(a, c) + Count(b, c)
  {
    if a == [] {
      assert a + b == b;
    } else {
      assert (a + b)[1..] == a[1..] + b;
      CountConcat(a[1..], b, c);
    }
  }

  /** A string made only of c holds |s| of them. */
  lemma {:induction false} CountAll(s: string, c: char)
    requires forall i :: 0 <= i < |s| ==> s[i] == c
    ensures Count(s, c) == |s|
  {
    if s != [] {
      CountAll(s[1..], c);
    }
  }

  /** A string without c holds none of them. */
  lemma {:induction false} CountNone(s: string, c: char)
    requires c !in s
    ensures Count(s, c) == 0
  {
    if s != [] {
      assert s[0] != c;
      CountNone(s[1..], c);
    }
  }

  /** strings.TrimRight with a one-character cutset: drops every trailing c. */
  function TrimRight(s: string, c: char): (r: string)
    ensures |r| <= |s| && r == s[..|r|]
    ensures r == [] || r[|r| - 1] != c
    ensures forall i :: |r| <= i < |s| ==> s[i] == c
  {
    if s != [] && s[|s| - 1] == c then TrimRight(s[..|s| - 1], c) else s
  }

  function TrimLeftUnicode(s: string): (r: string)
    ensures |r| <= |s| && r == s[|s| - |r|..]
    ensures r == [] || !IsUnicodeSpace(r[0])
    ensures forall i :: 0 <= i < |s| - |r| ==> IsUnicodeSpace(s[i])
  {
    if s != [] && IsUnicodeSpace(s[0]) then TrimLeftUnicode(s[1..]) else s
  }

  function TrimRightUnicode(s: string): (r: string)
    ensures |r| <= |s| && r == s[..|r|]
    ensures r == [] || !IsUnicodeSpace(r[|r| - 1])
    ensures forall i :: |r| <= i < |s| ==> IsUnicodeSpace(s[i])
  {
    if s != [] && IsUnicodeSpace(s[|s| - 1]) then TrimRightUnicode(s[..|s| - 1]) else s
  }

  /** strings.TrimSpace: drops leading and trailing unicode.IsSpace characters.
      The result is the slice s[lo..lo + |r|] with only spaces around it and
      a non-space at each end, which fixes it (TrimSpaceUnique). */
  function TrimSpace(s: string): (r: string)
    ensures |r| <= |s|
    ensures r == [] || (!IsUnicodeSpace(r[0]) && !IsUnicodeSpace(r[|r| - 1]))
    ensures exists lo :: TrimmedAt(s, lo, r)
  {
    var l := TrimLeftUnicode(s);
    var r := TrimRightUnicode(l);
    assert TrimmedAt(s, |s| - |l|, r);
    r
  }

  /** r sits at lo in s, with only unicode.IsSpace characters before and after it. */
  predicate TrimmedAt(s: string, lo: int, r: string)
  {
    && 0 <= lo && lo + |r| <= |s| && s[lo..lo + |r|] == r
    && (forall i :: 0 <= i < lo ==> IsUnicodeSpace(s[i]))
    && (forall i :: lo + |r| <= i < |s| ==> IsUnicodeSpace(s[i]))
  }

  /** Only one slice of s has spaces outside and non-spaces at both ends, so
      TrimSpace is fully determined by its contract. */
  lemma TrimSpaceUnique(s: string, lo1: int, r1: string, lo2: int, r2: string)
    requires TrimmedAt(s, lo1, r1) && (r1 == [] || (!IsUnicodeSpace(r1[0]) && !IsUnicodeSpace(r1[|r1| - 1])))
    requires TrimmedAt(s, lo2, r2) && (r2 == [] || (!IsUnicodeSpace(r2[0]) && !IsUnicodeSpace(r2[|r2| - 1])))
    ensures r1 == r2
  {
    if r1 != [] && r2 != [] {
      assert s[lo1] == r1[0] && s[lo2] == r2[0];
      assert s[lo1 + |r1| - 1] == r1[|r1| - 1] && s[lo2 + |r2| - 1] == r2[|r2| - 1];
      assert lo1 == lo2;
      assert lo1 + |r1| == lo2 + |r2|;
    }
  }

  /** strings.Contains. */
  predicate Contains(s: string, sub: string)
  {
    HasPrefix(s, sub) || (s != [] && Contains(s[1..], sub))
  }

  /** regexp.MustCompile(`\s+`).Split(s, n) for n >= 1: at most n pieces, the
      last one the unsplit remainder. Leading \s gives an empty first piece,
      trailing \s an empty last piece, as in Go. */
  function SplitFields(s: string, n: nat): (r: seq<string>)
    requires n >= 1
    ensures 1 <= |r| <= n
    decreases |s|
  {
    var t := Token(s);
    if n == 1 || t == s then [s]
    else [t] + SplitFields(SkipSpaces(s[|t|..]), n - 1)
  }

  /** What the fields are: with limit 1 the whole text; otherwise the first
      field is the leading token, every field but the last is free of \s and
      all but the first are nonempty, and the last field is free of \s too
      unless the limit was reached (then it is the unsplit remainder). */
  lemma {:induction false} SplitFieldsShape(s: string, n: nat)
    requires n >= 1
    ensures var r := SplitFields(s, n);
      && (n == 1 ==> r == [s])
      && (n > 1 ==> r[0] == Token(s))
      && (forall i :: 0 <= i < |r| - 1 ==> SpaceFree(r[i]))
      && (forall i :: 1 <= i < |r| - 1 ==> r[i] != [])
      && (|r| < n ==> SpaceFree(r[|r| - 1]))
    decreases |s|
  {
    var t := Token(s);
    if !(n == 1 || t == s) {
      var rest := SkipSpaces(s[|t|..]);
      SplitFieldsShape(rest, n - 1);
      var r := SplitFields(s, n);
      var rr := SplitFields(rest, n - 1);
      assert r == [t] + rr;
      assert SpaceFree(r[0]);
      forall i | 1 <= i < |r| - 1
        ensures SpaceFree(r[i]) && r[i] != []
      {
        assert r[i] == rr[i - 1];
        if i == 1 {
          assert rr[0] == Token(rest);
          assert rest != [] by {
            assert |t| < |s|;
          }
        }
      }
      assert |r| < n ==> r[|r| - 1] == rr[|rr| - 1];
    }
  }

  /** t holds no \s character. */
  predicate SpaceFree(t: string)
  {
    forall i :: 0 <= i < |t| ==> !IsSpace(t[i])
  }

  /** t holds only \s characters. */
  predicate AllSpace(g: string)
  {
    forall i :: 0 <= i < |g| ==> IsSpace(g[i])
  }

  lemma {:induction false} TokenPrefix(t: string, rest: string)
    requires forall i :: 0 <= i < |t| ==> !IsSpace(t[i])
    requires rest == [] || IsSpace(rest[0])
    ensures Token(t + rest) == t
  {
    if t == [] {
      assert t + rest == rest;
    } else {
      assert (t + rest)[1..] == t[1..] + rest;
      TokenPrefix(t[1..], rest);
      assert [t[0]] + t[1..] == t;
    }
  }

  /** A run of \s in front of a text that starts with a non-space is skipped whole. */
  lemma {:induction false} SkipSpaceRun(g: string, t: string)
    requires AllSpace(g)
    requires t == [] || !IsSpace(t[0])
    ensures SkipSpaces(g + t) == t
  {
    if g == [] {
      assert g + t == t;
    } else {
      assert (g + t)[1..] == g[1..] + t;
      SkipSpaceRun(g[1..], t);
    }
  }

  /** Fields put together with runs of \s between them. */
  function Interleave(fields: seq<string>, gaps: seq<string>): string
    requires |fields| >= 1 && |gaps| == |fields| - 1
  {
    if |fields| == 1 then fields[0]
    else fields[0] + gaps[0] + Interleave(fields[1..], gaps[1..])
  }

  /** Splitting undoes Interleave: space-free fields, all but the first
      nonempty, separated by nonempty runs of \s, are cut back into the same
      fields when the limit is their number. */
  lemma {:induction false} SplitFieldsRoundTrip(fields: seq<string>, gaps: seq<string>)
    requires |fields| >= 1 && |gaps| == |fields| - 1
    requires forall i :: 0 <= i < |fields| ==> SpaceFree(fields[i])
    requires forall i :: 1 <= i < |fields| ==> fields[i] != []
    requires forall i :: 0 <= i < |gaps| ==> gaps[i] != [] && AllSpace(gaps[i])
    ensures SplitFields(Interleave(fields, gaps), |fields|) == fields
  {
    if |fields| > 1 {
      var rest := Interleave(fields[1..], gaps[1..]);
      SplitFieldsRoundTrip(fields[1..], gaps[1..]);
      assert rest[0] == fields[1][0] by {
        if |fields| > 2 {
          assert rest == fields[1] + (gaps[1] + Interleave(fields[2..], gaps[2..]));
        }
      }
      SplitFieldsCons(fields[0], gaps[0], rest, |fields|);
      assert fields == [fields[0]] + fields[1..];
    }
  }

  /** A field, a nonempty run of \s and a text starting with a non-space:
      the field is cut off and the rest split with one field fewer. */
  lemma SplitFieldsCons(t: string, g: string, rest: string, n: nat)
    requires SpaceFree(t) && g != [] && AllSpace(g)
    requires rest == [] || !IsSpace(rest[0])
    requires n >= 2
    ensures SplitFields(t + g + rest, n) == [t] + SplitFields(rest, n - 1)
  {
    var s := t + g + rest;
    assert s == t + (g + rest);
    TokenPrefix(t, g + rest);
    assert s[|t|..] == g + rest;
    SkipSpaceRun(g, rest);
  }

  /** Cuts s at every occurrence of sep; the inverse of Join. */
  function Split(s: string, sep: char): (r: seq<string>)
    ensures |r| >= 1
  {
    if s == [] then [[]]
    else
      var rest := Split(s[1..], sep);
      if s[0] == sep then [[]] + rest else [[s[0]] + rest[0]] + rest[1..]
  }

  function Join(parts: seq<string>, sep: char): string
  {
    if parts == [] then []
    else if |parts| == 1 then parts[0]
    else parts[0] + [sep] + Join(parts[1..], sep)
  }

  lemma {:induction false} JoinSplit(s: string, sep: char)
    ensures Join(Split(s, sep), sep) == s
  {
    if s != [] {
      JoinSplit(s[1..], sep);
      var rest := Split(s[1..], sep);
      if s[0] == sep {
        assert Join([[]] + rest, sep) == [] + [sep] + Join(rest, sep);
      } else if |rest| == 1 {
        assert Split(s, sep) == [[s[0]] + rest[0]];
      } else {
        var r := [[s[0]] + rest[0]] + rest[1..];
        assert r[1..] == rest[1..];
        assert Join(rest, sep) == rest[0] + [sep] + Join(rest[1..], sep);
        assert Join(r, sep) == [s[0]] + rest[0] + [sep] + Join(rest[1..], sep);
      }
    }
  }

  lemma {:induction false} SplitHasNoSeparator(s: string, sep: char)
    ensures forall i :: 0 <= i < |Split(s, sep)| ==> sep !in Split(s, sep)[i]
  {
    if s != [] {
      SplitHasNoSeparator(s[1..], sep);
    }
  }

  /** Every piece of Split(Join(parts)) is one of parts when no part holds
      the separator: Split is the inverse of Join on such lists. */
  lemma {:induction false} SplitJoin(parts: seq<string>, sep: char)
    requires |parts| >= 1
    requires forall i :: 0 <= i < |parts| ==> sep !in parts[i]
    ensures Split(Join(parts, sep), sep) == parts
  {
    if |parts| == 1 {
      SplitOfPlain(parts[0], sep);
    } else {
      SplitJoin(parts[1..], sep);
      SplitConcat(parts[0], Join(parts[1..], sep), sep);
    }
  }

  lemma {:induction false} SplitOfPlain(s: string, sep: char)
    requires sep !in s
    ensures Split(s, sep) == [s]
  {
    if s != [] {
      SplitOfPlain(s[1..], sep);
      assert [s[0]] + s[1..] == s;
    }
  }

  lemma {:induction false} SplitConcat(a: string, b: string, sep: char)
    requires sep !in a
    ensures Split(a + [sep] + b, sep) == [a] + Split(b, sep)
  {
    if a == [] {
      assert a + [sep] + b == [sep] + b;
      assert ([sep] + b)[1..] == b;
    } else {
      assert (a + [sep] + b)[1..] == a[1..] + [sep] + b;
      SplitConcat(a[1..], b, sep);
      assert [a[0]] + a[1..] == a;
    }
  }

  /** Removes one trailing carriage return, as bufio.ScanLines does. */
  function DropCR(s: string): (r: string)
    ensures (s != [] && s[|s| - 1] == '\r') <==> s == r + ['\r']
    ensures !(s != [] && s[|s| - 1] == '\r') ==> r == s
  {
    if s != [] && s[|s| - 1] == '\r' then s[..|s| - 1] else s
  }

  /** The tokens a bufio.Scanner with ScanLines yields: the text cut at each
      newline, a final empty piece dropped, one trailing \r removed per line. */
  function ScanLines(text: string): (lines: seq<string>)
    ensures forall i :: 0 <= i < |lines| ==> '\n' !in lines[i]
    ensures text == [] ==> lines == []
  {
    var parts := Split(text, '\n');
    SplitHasNoSeparator(text, '\n');
    var kept := if parts[|parts| - 1] == [] then parts[..|parts| - 1] else parts;
    seq(|kept|, i requires 0 <= i < |kept| => DropCR(kept[i]))
  }

  /** Each line followed by a newline: a text made of whole lines. */
  function Unlines(lines: seq<string>): string
  {
    if lines == [] then "" else lines[0] + "\n" + Unlines(lines[1..])
  }

  lemma {:induction false} UnlinesJoin(lines: seq<string>)
    ensures Unlines(lines) == Join(lines + [""], '\n')
  {
    if lines != [] {
      UnlinesJoin(lines[1..]);
      assert (lines + [""])[1..] == lines[1..] + [""];
    }
  }

  /** A line that bufio.ScanLines gives back as it is. */
  predicate PlainLine(l: string)
  {
    '\n' !in l && (l == [] || l[|l| - 1] != '\r')
  }

  /** ScanLines reads back the lines a text of whole lines was written from. */
  lemma ScanLinesRoundTrip(lines: seq<string>)
    requires forall i :: 0 <= i < |lines| ==> PlainLine(lines[i])
    ensures ScanLines(Unlines(lines)) == lines
  {
    UnlinesJoin(lines);
    var ext := lines + [""];
    assert forall i :: 0 <= i < |ext| ==> '\n' !in ext[i] by {
      forall i | 0 <= i < |ext| ensures '\n' !in ext[i] {
        if i < |lines| { assert ext[i] == lines[i]; }
      }
    }
    SplitJoin(ext, '\n');
    assert Split(Unlines(lines), '\n') == ext;
    assert ext[..|ext| - 1] == lines;
    DropCRKeeps(lines);
  }

  /** The same when the last line has no newline after it. */
  lemma ScanLinesRoundTripOpen(lines: seq<string>)
    requires forall i :: 0 <= i < |lines| ==> PlainLine(lines[i])
    requires lines != [] && lines[|lines| - 1] != []
    ensures ScanLines(Join(lines, '\n')) == lines
  {
    assert forall i :: 0 <= i < |lines| ==> '\n' !in lines[i];
    SplitJoin(lines, '\n');
    DropCRKeeps(lines);
  }

  /** DropCR leaves plain lines as they are. */
  lemma DropCRKeeps(lines: seq<string>)
    requires forall i :: 0 <= i < |lines| ==> PlainLine(lines[i])
    ensures seq(|lines|, i requires 0 <= i < |lines| => DropCR(lines[i])) == lines
  {
  }

  // ---- decimal formatting: fmt's %d and %05d ----

  predicate IsDigit(c: char)
  {
    '0' <= c <= '9'
  }

  predicate AllDigits(s: string)
  {
    forall i :: 0 <= i < |s| ==> IsDigit(s[i])
  }

  function DigitChar(d: nat): (c: char)
    requires d < 10
    ensures IsDigit(c) && c as int - '0' as int == d
  {
    ('0' as int + d) as char
  }

  /** Decimal digits of n, no leading zero (%d of a non-negative value). */
  function NatToDecimal(n: nat): (r: string)
    ensures |r| >= 1 && AllDigits(r)
  {
    if n < 10 then [DigitChar(n)] else NatToDecimal(n / 10) + [DigitChar(n % 10)]
  }

  /** The number a string of decimal digits denotes; the inverse of NatToDecimal. */
  function DecimalValue(s: string): nat
    requires AllDigits(s)
  {
    if s == [] then 0 else DecimalValue(s[..|s| - 1]) * 10 + (s[|s| - 1] as int - '0' as int)
  }

  lemma {:induction false} DecimalRoundTrip(n: nat)
    ensures DecimalValue(NatToDecimal(n)) == n
  {
    if n >= 10 {
      DecimalRoundTrip(n / 10);
      var s := NatToDecimal(n);
      assert s[..|s| - 1] == NatToDecimal(n / 10);
    }
  }

  function Zeros(k: nat): (r: string)
    ensures |r| == k && AllDigits(r)
    ensures forall i :: 0 <= i < k ==> r[i] == '0'
  {
    if k == 0 then [] else Zeros(k - 1) + ['0']
  }

  /** fmt's %05d: the decimal digits, left-padded with zeros to width 5. */
  function Padded5(n: nat): (r: string)
    ensures AllDigits(r)
    ensures |r| == if |NatToDecimal(n)| < 5 then 5 else |NatToDecimal(n)|
    ensures DecimalValue(r) == n
  {
    var d := NatToDecimal(n);
    DecimalRoundTrip(n);
    LeadingZerosKeepValue(if |d| < 5 then 5 - |d| else 0, d);
    Zeros(if |d| < 5 then 5 - |d| else 0) + d
  }

  lemma {:induction false} LeadingZerosKeepValue(k: nat, s: string)
    requires AllDigits(s)
    ensures AllDigits(Zeros(k) + s) && DecimalValue(Zeros(k) + s) == DecimalValue(s)
  {
    var z := Zeros(k) + s;
    if s == [] {
      assert z == Zeros(k);
      ZerosValue(k);
    } else {
      assert z[..|z| - 1] == Zeros(k) + s[..|s| - 1];
      LeadingZerosKeepValue(k, s[..|s| - 1]);
    }
  }

  lemma {:induction false} ZerosValue(k: nat)
    ensures DecimalValue(Zeros(k)) == 0
  {
    if k > 0 {
      ZerosValue(k - 1);
      assert Zeros(k)[..k - 1] == Zeros(k - 1);
    }
  }

  /** fmt's %d of an int: a minus sign for negative values. */
  function IntToDecimal(i: int): (r: string)
    ensures |r| >= 1
  {
    if i < 0 then "-" + NatToDecimal(-i) else NatToDecimal(i)
  }

  /** Reads back what IntToDecimal writes (the partner of IntToDecimal). */
  function ParseInt(s: string): int
  {
    if s != [] && s[0] == '-' && AllDigits(s[1..]) then 0 - DecimalValue(s[1..]) as int
    else if AllDigits(s) then DecimalValue(s)
    else 0
  }

  lemma IntRoundTrip(i: int)
    ensures ParseInt(IntToDecimal(i)) == i
  {
    if i < 0 {
      var d := NatToDecimal(-i);
      DecimalRoundTrip(-i);
      var s := "-" + d;
      assert s[0] == '-' && s[1..] == d;
      assert AllDigits(s[1..]);
    } else {
      var d := NatToDecimal(i);
      DecimalRoundTrip(i);
      assert IsDigit(d[0]);
    }
  }
}
