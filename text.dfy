/**
  The text helpers of pyop2/utils.py: `trim`, which dedents a docstring the
  way PEP 257 describes, and `strip`, which drops blank lines and lines holding
  only ';' from generated code, together with the Python 2 `str` methods they
  use (`expandtabs`, `splitlines`, `strip`, `lstrip`, `rstrip`, `'\n'.join`).
 */
module Text {
  import opened Python

  // ---------------------------------------------------------------------------
  // Python 2 str methods

  /** `c.isspace()` for a byte string: space, tab, newline, carriage return,
      vertical tab and form feed. */
  predicate IsSpace(c: char) {
    c == ' ' || c == '\t' || c == '\n' || c == '\r' || c == '\U{000B}' || c == '\U{000C}'
  }

  /** The characters `splitlines` breaks at. */
  predicate IsLineBreak(c: char) {
    c == '\n' || c == '\r'
  }

  predicate NoLineBreak(s: string) {
    forall k :: 0 <= k < |s| ==> !IsLineBreak(s[k])
  }

  predicate AllSpace(s: string) {
    forall k :: 0 <= k < |s| ==> IsSpace(s[k])
  }

  /** The number of whitespace characters `s` starts with. */
  function LeadingSpaces(s: string): (n: nat)
    ensures n <= |s|
  {
    if s != [] && IsSpace(s[0]) then 1 + LeadingSpaces(s[1..]) else 0
  }

  /** The length of `s` without its trailing whitespace. */
  function TextEnd(s: string): (n: nat)
    ensures n <= |s|
  {
    if s != [] && IsSpace(s[|s| - 1]) then TextEnd(s[..|s| - 1]) else |s|
  }

  /** LeadingSpaces counts exactly the whitespace before the first other character. */
  lemma {:induction false} LeadingSpacesSpan(s: string)
    ensures var n := LeadingSpaces(s);
      (n == |s| || !IsSpace(s[n])) && forall k :: 0 <= k < n ==> IsSpace(s[k])
    decreases |s|
  {
    if s != [] && IsSpace(s[0]) {
      LeadingSpacesSpan(s[1..]);
      assert forall k :: 1 <= k < |s| ==> s[k] == s[1..][k - 1];
    }
  }

  /** TextEnd stops after the last character that is not whitespace. */
  lemma {:induction false} TextEndSpan(s: string)
    ensures var n := TextEnd(s);
      (n == 0 || !IsSpace(s[n - 1])) && forall k :: n <= k < |s| ==> IsSpace(s[k])
    decreases |s|
  {
    if s != [] && IsSpace(s[|s| - 1]) {
      TextEndSpan(s[..|s| - 1]);
      assert forall k :: 0 <= k < |s| - 1 ==> s[k] == s[..|s| - 1][k];
    }
  }

  /** `s.lstrip()` */
  function LStripWs(s: string): string {
    s[LeadingSpaces(s)..]
  }

  /** `s.rstrip()` */
  function RStripWs(s: string): string {
    s[..TextEnd(s)]
  }

  /** `s.strip()` */
  function StripWs(s: string): string {
    RStripWs(LStripWs(s))
  }

  /** `len(line) - len(line.lstrip())` */
  function Indentation(line: string): nat {
    |line| - |LStripWs(line)|
  }

  /** `s[n:]` for n >= 0, which is empty when n is past the end. */
  function Drop(s: string, n: nat): string {
    if n >= |s| then [] else s[n..]
  }

  const TAB_SIZE := 8

  function Spaces(n: nat): (r: string)
    ensures |r| == n && AllSpace(r) && NoLineBreak(r)
  {
    seq(n, _ => ' ')
  }

  /** `s.expandtabs()` for text starting at `column`: a tab becomes the spaces
      up to the next multiple of 8, and a newline or carriage return resets the column. */
  function ExpandTabsFrom(s: string, column: nat): (r: string)
    ensures |r| >= |s|
    ensures forall k :: 0 <= k < |r| ==> r[k] != '\t'
    decreases |s|
  {
    if s == [] then []
    else if s[0] == '\t' then
      var n := TAB_SIZE - column % TAB_SIZE;
      Spaces(n) + ExpandTabsFrom(s[1..], column + n)
    else if IsLineBreak(s[0]) then [s[0]] + ExpandTabsFrom(s[1..], 0)
    else [s[0]] + ExpandTabsFrom(s[1..], column + 1)
  }

  function ExpandTabs(s: string): string {
    ExpandTabsFrom(s, 0)
  }

  /** Text without tabs is left as it is. */
  lemma {:induction false} ExpandTabsIdentity(s: string, column: nat)
    requires forall k :: 0 <= k < |s| ==> s[k] != '\t'
    ensures ExpandTabsFrom(s, column) == s
    decreases |s|
  {
    if s != [] {
      ExpandTabsIdentity(s[1..], if IsLineBreak(s[0]) then 0 else column + 1);
    }
  }

  /** The index of the first line break of `s`, or `|s|`. */
  function LineEnd(s: string): (k: nat)
    ensures k <= |s| && NoLineBreak(s[..k])
    ensures k < |s| ==> IsLineBreak(s[k])
  {
    if s == [] || IsLineBreak(s[0]) then 0
    else
      var k := LineEnd(s[1..]) + 1;
      assert s[..k] == [s[0]] + s[1..][..k - 1];
      k
  }

  /** `s.splitlines()` for a byte string: lines end at "\n", "\r" or "\r\n",
      and a final line break adds no empty line. */
  function SplitLines(s: string): (lines: seq<string>)
    ensures s != [] ==> |lines| >= 1
    ensures forall k :: 0 <= k < |lines| ==> NoLineBreak(lines[k])
    decreases |s|
  {
    if s == [] then []
    else
      var k := LineEnd(s);
      if k == |s| then [s]
      else
        var next := if s[k] == '\r' && k + 1 < |s| && s[k + 1] == '\n' then k + 2 else k + 1;
        [s[..k]] + SplitLines(s[next..])
  }

  /** `'\n'.join(lines)` */
  function Join(lines: seq<string>): string
    decreases |lines|
  {
    if lines == [] then []
    else if |lines| == 1 then lines[0]
    else lines[0] + "\n" + Join(lines[1..])
  }

  /** Splitting joined lines gives them back, when no line holds a line break
      and the last line is not empty. */
  lemma {:induction false} SplitJoin(lines: seq<string>)
    requires forall k :: 0 <= k < |lines| ==> NoLineBreak(lines[k])
    requires lines == [] || lines[|lines| - 1] != []
    ensures SplitLines(Join(lines)) == lines
    decreases |lines|
  {
    if |lines| == 1 {
      assert lines[0][..|lines[0]|] == lines[0];
      SplitNoBreak(lines[0]);
    } else if |lines| > 1 {
      var l := lines[0];
      var rest := lines[1..];
      forall k | 0 <= k < |rest| ensures NoLineBreak(rest[k]) {
        assert rest[k] == lines[k + 1];
      }
      assert rest[|rest| - 1] == lines[|lines| - 1];
      JoinNonEmpty(rest);
      SplitJoin(rest);
      SplitFirstLine(l, Join(rest));
    }
  }

  /** A line without line breaks, a newline and a non-empty rest split into
      that line followed by the lines of the rest. */
  lemma SplitFirstLine(l: string, rest: string)
    requires NoLineBreak(l) && rest != []
    ensures SplitLines(l + "\n" + rest) == [l] + SplitLines(rest)
  {
    var t := "\n" + rest;
    var s := l + t;
    assert l + "\n" + rest == s;
    LineEndBefore(l, t);
    assert s[|l|] == '\n';
    assert s[..|l|] == l;
    assert s[|l| + 1..] == rest;
  }

  /** A line with no line break, followed by a line break, ends where that break is. */
  lemma {:induction false} LineEndBefore(l: string, t: string)
    requires NoLineBreak(l) && t != [] && IsLineBreak(t[0])
    ensures LineEnd(l + t) == |l|
    decreases |l|
  {
    if l == [] {
      assert l + t == t;
    } else {
      assert (l + t)[1..] == l[1..] + t;
      assert forall k :: 0 <= k < |l[1..]| ==> l[1..][k] == l[k + 1];
      LineEndBefore(l[1..], t);
    }
  }

  /** A non-empty line without line breaks splits into itself. */
  lemma SplitNoBreak(l: string)
    requires l != [] && NoLineBreak(l)
    ensures SplitLines(l) == [l]
  {
  }

  lemma {:induction false} JoinNonEmpty(lines: seq<string>)
    requires lines != [] && lines[|lines| - 1] != []
    ensures Join(lines) != []
    decreases |lines|
  {
    if |lines| > 1 {
      assert lines[1..][|lines[1..]| - 1] == lines[|lines| - 1];
      JoinNonEmpty(lines[1..]);
    }
  }

  /** A slice of a line has no line break when the line has none. */
  lemma SliceNoLineBreak(s: string, i: nat, j: nat)
    requires i <= j <= |s| && NoLineBreak(s)
    ensures NoLineBreak(s[i..j])
  {
    assert forall k :: 0 <= k < j - i ==> s[i..j][k] == s[i + k];
  }

  lemma StripNoLineBreak(s: string)
    requires NoLineBreak(s)
    ensures NoLineBreak(LStripWs(s)) && NoLineBreak(RStripWs(s)) && NoLineBreak(StripWs(s))
  {
    SliceNoLineBreak(s, |s| - |LStripWs(s)|, |s|);
    SliceNoLineBreak(s, 0, |RStripWs(s)|);
    SliceNoLineBreak(LStripWs(s), 0, |StripWs(s)|);
  }

  /** A line of whitespace only right-strips to nothing. */
  lemma RStripAllSpace(s: string)
    requires AllSpace(s)
    ensures RStripWs(s) == []
  {
    TextEndSpan(s);
  }

  // ---------------------------------------------------------------------------
  // trim

  /** sys.maxint on a 64-bit build, the starting value of the indentation search. */
  const MAXINT := 0x7FFF_FFFF_FFFF_FFFF

  function Min(a: int, b: int): int {
    if a <= b then a else b
  }

  /** `line.lstrip()` is not empty. */
  predicate HasText(line: string) {
    LStripWs(line) != []
  }

  /** The indentation loop of `trim` over `lines`: MAXINT lowered to the
      indentation of each line that has text. */
  function MinIndent(lines: seq<string>): (m: nat)
    ensures m <= MAXINT
    decreases |lines|
  {
    if lines == [] then MAXINT
    else
      var m := MinIndent(lines[..|lines| - 1]);
      var last := lines[|lines| - 1];
      if HasText(last) then Min(m, Indentation(last)) else m
  }

  /** MinIndent is the least indentation of the lines with text, or MAXINT when there is none. */
  lemma {:induction false} MinIndentIsLeast(lines: seq<string>)
    ensures forall k :: 0 <= k < |lines| && HasText(lines[k]) ==> MinIndent(lines) <= Indentation(lines[k])
    ensures MinIndent(lines) == MAXINT ||
      exists k :: 0 <= k < |lines| && HasText(lines[k]) && MinIndent(lines) == Indentation(lines[k])
    decreases |lines|
  {
    if lines != [] {
      var init := lines[..|lines| - 1];
      MinIndentIsLeast(init);
      assert forall k :: 0 <= k < |init| ==> init[k] == lines[k];
    }
  }

  /** The list `trimmed` before blank lines are popped: the first line
      stripped, then, if some later line is not blank, every later line without
      the common indentation and right-stripped. */
  function Dedent(lines: seq<string>): (d: seq<string>)
    requires lines != []
    ensures d != [] && d[0] == StripWs(lines[0])
  {
    var indent := MinIndent(lines[1..]);
    [StripWs(lines[0])] + if indent < MAXINT then DedentEach(lines[1..], indent) else []
  }

  /** Each line without its first `indent` characters, right-stripped. */
  function DedentEach(rest: seq<string>, indent: nat): (r: seq<string>)
    ensures |r| == |rest|
  {
    seq(|rest|, k requires 0 <= k < |rest| => RStripWs(Drop(rest[k], indent)))
  }

  /** The length of `ls` without its trailing empty lines. */
  function TextLinesEnd(ls: seq<string>): (n: nat)
    ensures n <= |ls| && (n == 0 || |ls[n - 1]| != 0)
    ensures forall k :: n <= k < |ls| ==> |ls[k]| == 0
  {
    if ls != [] && |ls[|ls| - 1]| == 0 then TextLinesEnd(ls[..|ls| - 1]) else |ls|
  }

  /** The number of empty lines `ls` starts with. */
  function TextLinesStart(ls: seq<string>): (n: nat)
    ensures n <= |ls| && (n == |ls| || |ls[n]| != 0)
    ensures forall k :: 0 <= k < n ==> |ls[k]| == 0
  {
    if ls != [] && |ls[0]| == 0 then 1 + TextLinesStart(ls[1..]) else 0
  }

  /** `ls` without the empty lines at its end, and then without those at its start. */
  function DropBlankEnds(ls: seq<string>): seq<string> {
    var u := ls[..TextLinesEnd(ls)];
    u[TextLinesStart(u)..]
  }

  /** The lines of the docstring after `expandtabs` and `splitlines`. */
  function DocLines(doc: string): (lines: seq<string>)
    requires doc != []
    ensures lines != []
  {
    SplitLines(ExpandTabs(doc))
  }

  /** The lines `trim` joins: none for an absent or empty docstring. */
  function Trimmed(docstring: Option<string>): seq<string> {
    if docstring.None? || docstring.value == [] then []
    else DropBlankEnds(Dedent(DocLines(docstring.value)))
  }

  method Trim(docstring: Option<string>) returns (r: string)
    ensures r == Join(Trimmed(docstring))
  {
    if docstring.None? || docstring.value == [] {
      return "";
    }
    var lines := SplitLines(ExpandTabs(docstring.value));
    var trimmed := DedentLines(lines);
    trimmed := PopBlankEnds(trimmed);
    r := Join(trimmed);
  }

  /** The first two loops of `trim`: the least indentation of the lines after
      the first, then the first line stripped and the later ones dedented. */
  method DedentLines(lines: seq<string>) returns (trimmed: seq<string>)
    requires lines != []
    ensures trimmed == Dedent(lines)
  {
    // minimum indentation, the first line not counting
    var indent := MAXINT;
    var i := 1;
    while i < |lines|
      invariant 1 <= i <= |lines|
      invariant indent == MinIndent(lines[1..i])
    {
      var line := lines[i];
      var stripped := LStripWs(line);
      assert lines[1..i + 1][..i - 1] == lines[1..i];
      if stripped != [] {
        indent := Min(indent, |line| - |stripped|);
      }
      i := i + 1;
    }
    assert lines[1..i] == lines[1..];
    // remove the indentation; the first line is special
    ghost var d := Dedent(lines);
    trimmed := [StripWs(lines[0])];
    if indent < MAXINT {
      var j := 1;
      while j < |lines|
        invariant 1 <= j <= |lines|
        invariant trimmed == d[..j]
      {
        DedentAt(lines, j);
        PrefixExtend(d, j);
        trimmed := trimmed + [RStripWs(Drop(lines[j], indent))];
        j := j + 1;
      }
      assert |d| == |lines|;
    }
  }

  lemma PrefixExtend<T>(s: seq<T>, j: nat)
    requires j < |s|
    ensures s[..j + 1] == s[..j] + [s[j]]
  {
  }

  lemma PrefixShrink<T>(s: seq<T>, n: nat)
    requires 0 < n <= |s|
    ensures s[..n][..n - 1] == s[..n - 1]
  {
  }

  lemma SuffixShrink<T>(s: seq<T>, n: nat)
    requires n < |s|
    ensures s[n..][1..] == s[n + 1..]
  {
  }

  /** The two `while trimmed and not trimmed[...]: trimmed.pop(...)` loops of
      `trim`: the empty lines at the end are popped, then those at the start. */
  method PopBlankEnds(d: seq<string>) returns (trimmed: seq<string>)
    ensures trimmed == DropBlankEnds(d)
  {
    trimmed := d;
    ghost var hi := |d|;
    while trimmed != [] && |trimmed[|trimmed| - 1]| == 0
      invariant TextLinesEnd(d) <= hi <= |d| && trimmed == d[..hi]
      decreases |trimmed|
    {
      PrefixShrink(d, hi);
      trimmed := trimmed[..|trimmed| - 1];
      hi := hi - 1;
    }
    ghost var u := d[..TextLinesEnd(d)];
    assert trimmed == u;
    ghost var lo := 0;
    while trimmed != [] && |trimmed[0]| == 0
      invariant lo <= TextLinesStart(u) && trimmed == u[lo..]
      decreases |trimmed|
    {
      SuffixShrink(u, lo);
      trimmed := trimmed[1..];
      lo := lo + 1;
    }
  }

  /** An absent or empty docstring trims to the empty string. */
  lemma TrimEmpty()
    ensures Join(Trimmed(None)) == "" && Join(Trimmed(Some(""))) == ""
  {
  }

  /** Popping keeps a slice of the lines from which only empty lines were
      removed at either end, and neither end of what is kept is empty. */
  lemma DropBlankEndsIsSlice(ls: seq<string>)
    ensures var t := DropBlankEnds(ls);
      && (t == [] || (|t[0]| != 0 && |t[|t| - 1]| != 0))
      && exists lo, hi :: 0 <= lo <= hi <= |ls| && t == ls[lo..hi]
           && (forall k :: 0 <= k < lo ==> |ls[k]| == 0)
           && (forall k :: hi <= k < |ls| ==> |ls[k]| == 0)
  {
    var hi := TextLinesEnd(ls);
    var lo := TextLinesStart(ls[..hi]);
    SliceOfPrefix(ls, lo, hi);
  }

  lemma SliceOfPrefix<T>(s: seq<T>, lo: nat, hi: nat)
    requires lo <= hi <= |s|
    ensures s[..hi][lo..] == s[lo..hi]
    ensures forall k :: 0 <= k < hi ==> s[..hi][k] == s[k]
  {
  }

  /** A first line with text keeps its place, fully stripped. */
  lemma FirstLineStripped(doc: string)
    requires doc != [] && StripWs(DocLines(doc)[0]) != []
    ensures Trimmed(Some(doc)) != [] && Trimmed(Some(doc))[0] == StripWs(DocLines(doc)[0])
  {
    var d := Dedent(DocLines(doc));
    assert TextLinesEnd(d) > 0;
  }

  /** Every later line loses exactly the least indentation of the later lines
      that are not blank: for those lines only whitespace is removed, and at
      least one of them then starts with its text.  Blank lines become empty. */
  lemma LaterLinesDedented(lines: seq<string>, k: nat)
    requires 1 <= k < |lines|
    requires MinIndent(lines[1..]) < MAXINT
    ensures var indent := MinIndent(lines[1..]);
      && |Dedent(lines)| == |lines|
      && Dedent(lines)[k] == RStripWs(Drop(lines[k], indent))
      && (HasText(lines[k]) ==>
            indent <= Indentation(lines[k]) && AllSpace(lines[k][..indent]) && Drop(lines[k], indent) == lines[k][indent..])
      && (!HasText(lines[k]) ==> Dedent(lines)[k] == [])
      && exists j :: 1 <= j < |lines| && HasText(lines[j]) && indent == Indentation(lines[j])
  {
    var rest := lines[1..];
    MinIndentIsLeast(rest);
    var indent := MinIndent(rest);
    assert rest[k - 1] == lines[k];
    var j :| 0 <= j < |rest| && HasText(rest[j]) && indent == Indentation(rest[j]);
    assert rest[j] == lines[j + 1];
    DedentAt(lines, k);
    if HasText(lines[k]) {
      SpacePrefix(lines[k], indent);
    } else {
      BlankDropsToEmpty(lines[k], indent);
    }
  }

  lemma DedentAt(lines: seq<string>, k: nat)
    requires 1 <= k < |lines| && MinIndent(lines[1..]) < MAXINT
    ensures |Dedent(lines)| == |lines| && Dedent(lines)[k] == RStripWs(Drop(lines[k], MinIndent(lines[1..])))
  {
    var indent := MinIndent(lines[1..]);
    var later := DedentEach(lines[1..], indent);
    assert Dedent(lines)[k] == later[k - 1];
    assert lines[1..][k - 1] == lines[k];
  }

  /** The first n characters of a line indented by at least n are whitespace. */
  lemma SpacePrefix(line: string, n: nat)
    requires n <= Indentation(line)
    ensures AllSpace(line[..n]) && Drop(line, n) == line[n..]
  {
    LeadingSpacesSpan(line);
    assert forall c :: 0 <= c < n ==> line[..n][c] == line[c];
  }

  /** A line without text becomes empty once indentation is dropped and it is right-stripped. */
  lemma BlankDropsToEmpty(line: string, n: nat)
    requires !HasText(line)
    ensures RStripWs(Drop(line, n)) == []
  {
    var dropped := Drop(line, n);
    LeadingSpacesSpan(line);
    assert LeadingSpaces(line) == |line|;
    assert forall c :: 0 <= c < |dropped| ==> dropped[c] == line[n + c];
    RStripAllSpace(dropped);
  }

  lemma SliceAt<T>(s: seq<T>, lo: nat, hi: nat)
    requires lo <= hi <= |s|
    ensures forall k :: 0 <= k < hi - lo ==> s[lo..hi][k] == s[lo + k]
  {
  }

  /** Dedenting only strips and slices lines, so it adds no line break. */
  lemma DedentNoLineBreak(lines: seq<string>)
    requires lines != [] && forall k :: 0 <= k < |lines| ==> NoLineBreak(lines[k])
    ensures forall k :: 0 <= k < |Dedent(lines)| ==> NoLineBreak(Dedent(lines)[k])
  {
    var d := Dedent(lines);
    var indent := MinIndent(lines[1..]);
    forall k | 0 <= k < |d| ensures NoLineBreak(d[k]) {
      if k == 0 {
        StripNoLineBreak(lines[0]);
      } else {
        DedentAt(lines, k);
        DropNoLineBreak(lines[k], indent);
      }
    }
  }

  lemma DropNoLineBreak(line: string, n: nat)
    requires NoLineBreak(line)
    ensures NoLineBreak(RStripWs(Drop(line, n)))
  {
    if n < |line| { SliceNoLineBreak(line, n, |line|); }
    StripNoLineBreak(Drop(line, n));
  }

  /** `trim` returns the trimmed lines joined by newlines, and splitting the
      result gives exactly those lines back. */
  lemma TrimSplitsBack(doc: string)
    requires doc != []
    ensures SplitLines(Join(Trimmed(Some(doc)))) == Trimmed(Some(doc))
  {
    DedentNoLineBreak(DocLines(doc));
    SplitBackDropped(Dedent(DocLines(doc)));
  }

  /** Lines without line breaks, popped of their empty ends, split back from their join. */
  lemma SplitBackDropped(ls: seq<string>)
    requires forall k :: 0 <= k < |ls| ==> NoLineBreak(ls[k])
    ensures SplitLines(Join(DropBlankEnds(ls))) == DropBlankEnds(ls)
  {
    DropBlankEndsIsSlice(ls);
    var t := DropBlankEnds(ls);
    var lo, hi :| 0 <= lo <= hi <= |ls| && t == ls[lo..hi];
    SliceAt(ls, lo, hi);
    SplitJoin(t);
  }

  // ---------------------------------------------------------------------------
  // strip

  /** A line `strip` keeps: its stripped text is neither empty nor ';'. */
  predicate IsCodeLine(line: string) {
    StripWs(line) != [] && StripWs(line) != ";"
  }

  /** `[x for x in s if keep(x)]` */
  function Filter<T>(keep: T -> bool, s: seq<T>): seq<T>
    decreases |s|
  {
    if s == [] then []
    else (if keep(s[0]) then [s[0]] else []) + Filter(keep, s[1..])
  }

  /** The kept lines, in order. */
  function CodeLines(lines: seq<string>): seq<string> {
    Filter(IsCodeLine, lines)
  }

  function Strip(code: string): string {
    Join(CodeLines(SplitLines(code)))
  }

  lemma {:induction false} FilterAppend<T>(keep: T -> bool, a: seq<T>, b: seq<T>)
    ensures Filter(keep, a + b) == Filter(keep, a) + Filter(keep, b)
    decreases |a|
  {
    if a == [] {
      assert a + b == b;
    } else {
      var head := if keep(a[0]) then [a[0]] else [];
      assert (a + b)[0] == a[0] && (a + b)[1..] == a[1..] + b;
      calc {
        Filter(keep, a + b);
        head + Filter(keep, a[1..] + b);
        { FilterAppend(keep, a[1..], b); }
        head + (Filter(keep, a[1..]) + Filter(keep, b));
        (head + Filter(keep, a[1..])) + Filter(keep, b);
      }
    }
  }

  lemma {:induction false} FilterCount<T>(keep: T -> bool, s: seq<T>, x: T)
    ensures multiset(Filter(keep, s))[x] == if keep(x) then multiset(s)[x] else 0
    decreases |s|
  {
    if s != [] {
      FilterCount(keep, s[1..], x);
      assert s == [s[0]] + s[1..];
    }
  }

  lemma {:induction false} FilterFrom<T>(keep: T -> bool, s: seq<T>)
    ensures forall k :: 0 <= k < |Filter(keep, s)| ==>
      keep(Filter(keep, s)[k]) && exists j :: 0 <= j < |s| && Filter(keep, s)[k] == s[j]
    decreases |s|
  {
    if s != [] {
      FilterFrom(keep, s[1..]);
      var head := if keep(s[0]) then [s[0]] else [];
      var r := Filter(keep, s);
      forall k | 0 <= k < |r|
        ensures keep(r[k]) && exists j :: 0 <= j < |s| && r[k] == s[j]
      {
        if k < |head| {
          assert r[k] == s[0];
        } else {
          var j :| 0 <= j < |s[1..]| && Filter(keep, s[1..])[k - |head|] == s[1..][j];
          assert r[k] == s[j + 1];
        }
      }
    }
  }

  /** Filtering distributes over concatenation, a single line being kept iff
      it is a code line: so exactly the code lines are kept, in their order. */
  lemma CodeLinesAppend(a: seq<string>, b: seq<string>)
    ensures CodeLines(a + b) == CodeLines(a) + CodeLines(b)
    ensures CodeLines([]) == [] && forall l :: CodeLines([l]) == if IsCodeLine(l) then [l] else []
  {
    FilterAppend(IsCodeLine, a, b);
    forall l ensures CodeLines([l]) == if IsCodeLine(l) then [l] else [] {
      assert [l][0] == l && [l][1..] == [];
      assert Filter(IsCodeLine, [l]) == (if IsCodeLine(l) then [l] else []) + Filter(IsCodeLine, []);
    }
  }

  /** Each line occurs among the kept lines as often as in the input if it is a
      code line, and not at all otherwise. */
  lemma CodeLinesCount(lines: seq<string>, x: string)
    ensures multiset(CodeLines(lines))[x] == if IsCodeLine(x) then multiset(lines)[x] else 0
  {
    FilterCount(IsCodeLine, lines, x);
  }

  /** Every kept line is a code line of the input, so it holds text and no line break. */
  lemma CodeLinesShape(lines: seq<string>)
    requires forall k :: 0 <= k < |lines| ==> NoLineBreak(lines[k])
    ensures forall k :: 0 <= k < |CodeLines(lines)| ==>
      CodeLines(lines)[k] != [] && NoLineBreak(CodeLines(lines)[k]) && IsCodeLine(CodeLines(lines)[k])
  {
    FilterFrom(IsCodeLine, lines);
  }

  /** Splitting the result of `strip` gives exactly the kept lines back. */
  lemma StripSplitsBack(code: string)
    ensures SplitLines(Strip(code)) == CodeLines(SplitLines(code))
  {
    var kept := CodeLines(SplitLines(code));
    CodeLinesShape(SplitLines(code));
    SplitJoin(kept);
  }
}
