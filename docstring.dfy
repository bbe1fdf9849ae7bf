/**
 * `DocStringFormatter` of `docstring_formatter.py`: turns a cleaned-up
 * docstring (tabs expanded to spaces, sentences wrapped over several lines)
 * back into printable text. Continuous lines are joined into paragraphs,
 * indenting spaces become tabs again, and a change of indent starts a new
 * output line.
 *
 * The two regular expressions of the source are modelled as explicit
 * leading-whitespace scans (`IndentMatch`, `SplitIndent`); Python floats are
 * reals.
 */
module DocString {
  import opened Funcs

  datatype Option<T> = None | Some(value: T)

  // ---------------------------------------------------------------------
  // Characters and strings

  /** Python's `str.isspace` for one character: what `strip`/`rstrip` remove. */
  predicate IsSpace(c: char)
  {
    c == ' ' || c == '\t' || c == '\n' || c == '\r' || c == '\U{0b}' || c == '\U{0c}' ||
    ('\U{1c}' <= c <= '\U{1f}') || c == '\U{85}' || c == '\U{a0}' || c == '\U{1680}' ||
    ('\U{2000}' <= c <= '\U{200a}') || c == '\U{2028}' || c == '\U{2029}' ||
    c == '\U{202f}' || c == '\U{205f}' || c == '\U{3000}'
  }

  /** The characters `str.splitlines` breaks at (`\r\n` counts as one break). */
  predicate IsLineBreak(c: char)
  {
    c == '\n' || c == '\r' || c == '\U{0b}' || c == '\U{0c}' ||
    ('\U{1c}' <= c <= '\U{1e}') || c == '\U{85}' || c == '\U{2028}' || c == '\U{2029}'
  }

  /** `not s.strip()`: the string is empty or whitespace only. */
  predicate IsBlank(s: string)
  {
    forall i :: 0 <= i < |s| ==> IsSpace(s[i])
  }

  /** `n` copies of `c`: `c * n` in Python. */
  function Repeat(c: char, n: nat): (s: string)
    ensures |s| == n && forall i :: 0 <= i < n ==> s[i] == c
  {
    seq(n, _ => c)
  }

  /** The length of the longest prefix of `s` made of `c` only. */
  function LeadingRun(s: string, c: char): (n: nat)
    ensures n <= |s|
    ensures forall i :: 0 <= i < n ==> s[i] == c
    ensures n == |s| || s[n] != c
  {
    if |s| > 0 && s[0] == c then 1 + LeadingRun(s[1..], c) else 0
  }

  /** `s.rstrip()`. */
  function RStrip(s: string): (r: string)
    ensures |r| <= |s| && r == s[..|r|]
    ensures forall i :: |r| <= i < |s| ==> IsSpace(s[i])
    ensures r == [] || !IsSpace(r[|r| - 1])
  {
    if |s| > 0 && IsSpace(s[|s| - 1]) then RStrip(s[..|s| - 1]) else s
  }

  /** The index of the first line break in `s`, or `|s|`. */
  function LineEnd(s: string): (i: nat)
    ensures i <= |s|
    ensures forall j :: 0 <= j < i ==> !IsLineBreak(s[j])
    ensures i == |s| || IsLineBreak(s[i])
  {
    if |s| == 0 || IsLineBreak(s[0]) then 0 else 1 + LineEnd(s[1..])
  }

  /** `s.splitlines()`: the lines, without their breaks; no empty last line for a trailing break. */
  function SplitLines(s: string): (lines: seq<string>)
    ensures s == [] <==> lines == []
    ensures s != [] && (forall j :: 0 <= j < |s| ==> !IsLineBreak(s[j])) ==> lines == [s]
    ensures forall k, j :: 0 <= k < |lines| && 0 <= j < |lines[k]| ==> !IsLineBreak(lines[k][j])
    decreases |s|
  {
    if s == [] then []
    else
      var i := LineEnd(s);
      if i == |s| then [s] else [s[..i]] + SplitLines(s[NextLineStart(s, i)..])
  }

  /** Where the next line starts after the break at `i`: `\r\n` is one break of two characters. */
  function NextLineStart(s: string, i: nat): (next: nat)
    requires i < |s|
    ensures i < next <= |s|
  {
    if s[i] == '\r' && i + 1 < |s| && s[i + 1] == '\n' then i + 2 else i + 1
  }

  /** `sep.join(parts)`. */
  function JoinWith(sep: string, parts: seq<string>): (r: string)
    ensures parts == [] ==> r == []
    ensures |parts| == 1 ==> r == parts[0]
  {
    if |parts| == 0 then ""
    else if |parts| == 1 then parts[0]
    else JoinWith(sep, parts[..|parts| - 1]) + sep + parts[|parts| - 1]
  }

  /** The summed lengths of the parts. */
  function TotalLength(parts: seq<string>): nat
  {
    if parts == [] then 0 else TotalLength(parts[..|parts| - 1]) + |parts[|parts| - 1]|
  }

  /** The joined string is the parts' lengths plus one separator between each two parts. */
  lemma {:induction false} JoinWithLength(sep: string, parts: seq<string>)
    requires parts != []
    ensures |JoinWith(sep, parts)| == TotalLength(parts) + (|parts| - 1) * |sep|
    decreases |parts|
  {
    if |parts| > 1 {
      JoinWithLength(sep, parts[..|parts| - 1]);
    }
  }

  /** Joining peels off at the front as well: the first part, the separator, then the others joined. */
  lemma {:induction false} JoinWithCons(sep: string, a: string, rest: seq<string>)
    requires rest != []
    ensures JoinWith(sep, [a] + rest) == a + sep + JoinWith(sep, rest)
    decreases |rest|
  {
    var parts := [a] + rest;
    assert parts[..|parts| - 1] == [a] + rest[..|rest| - 1];
    assert parts[|parts| - 1] == rest[|rest| - 1];
    if |rest| > 1 {
      JoinWithCons(sep, a, rest[..|rest| - 1]);
    } else {
      assert rest[..|rest| - 1] == [];
    }
  }

  /** Only `\n` breaks lines in `s`. */
  predicate OnlyNewlines(s: string)
  {
    forall j :: 0 <= j < |s| && IsLineBreak(s[j]) ==> s[j] == '\n'
  }

  /**
   * Splitting and joining with `\n` give the string back when its only line
   * breaks are `\n` and it does not end in one.
   */
  lemma {:induction false} SplitLinesJoin(s: string)
    requires OnlyNewlines(s) && (s == [] || s[|s| - 1] != '\n')
    ensures JoinWith("\n", SplitLines(s)) == s
    decreases |s|
  {
    if s != [] && LineEnd(s) < |s| {
      var i := LineEnd(s);
      var rest := s[i + 1..];
      NewlineSplit(s, i);
      SplitLinesJoin(rest);
      JoinWithCons("\n", s[..i], SplitLines(rest));
      BreakAt(s, i);
    }
  }

  /** At a `\n` that does not end the string, `SplitLines` cuts off one line and goes on after the break. */
  lemma NewlineSplit(s: string, i: nat)
    requires OnlyNewlines(s) && s != [] && s[|s| - 1] != '\n' && i == LineEnd(s) < |s|
    ensures s[i] == '\n' && i + 1 < |s|
    ensures var rest := s[i + 1..]; OnlyNewlines(rest) && rest[|rest| - 1] != '\n'
    ensures SplitLines(s) == [s[..i]] + SplitLines(s[i + 1..]) && SplitLines(s[i + 1..]) != []
  {
    assert IsLineBreak(s[i]);
    assert s[i] == '\n';
    var rest := s[i + 1..];
    assert rest[|rest| - 1] == s[|s| - 1];
    OnlyNewlinesSuffix(s, i + 1);
    SplitLinesAtNewline(s, i);
  }

  lemma OnlyNewlinesSuffix(s: string, k: nat)
    requires OnlyNewlines(s) && k <= |s|
    ensures OnlyNewlines(s[k..])
  {
    var rest := s[k..];
    forall j | 0 <= j < |rest| && IsLineBreak(rest[j]) ensures rest[j] == '\n' {
      assert rest[j] == s[k + j];
    }
  }

  lemma SplitLinesAtNewline(s: string, i: nat)
    requires i == LineEnd(s) < |s| && s[i] == '\n'
    ensures SplitLines(s) == [s[..i]] + SplitLines(s[i + 1..])
  {
    assert NextLineStart(s, i) == i + 1;
  }

  lemma BreakAt(s: string, i: nat)
    requires i < |s| && s[i] == '\n'
    ensures s == s[..i] + "\n" + s[i + 1..]
  {
    assert s == s[..i] + s[i..i + 1] + s[i + 1..];
  }

  // ---------------------------------------------------------------------
  // __recover_tab_indents

  /** The groups of `(\t*)( +)(\t*)(.*?)$` matched at the start of a line, as lengths and the rest. */
  datatype IndentGroups = IndentGroups(preTabs: nat, spaces: nat, postTabs: nat, rest: string)

  /** `_re_indent_match`: leading tabs, then at least one space, then tabs. */
  function IndentMatch(line: string): (m: Option<IndentGroups>)
    ensures m.Some? ==> m.value.spaces >= 1 && |m.value.rest| < |line|
  {
    var pre := LeadingRun(line, '\t');
    var sp := LeadingRun(line[pre..], ' ');
    if sp == 0 then None
    else
      var post := LeadingRun(line[pre + sp..], '\t');
      Some(IndentGroups(pre, sp, post, line[pre + sp + post..]))
  }

  /** The indent regex matches exactly when a space follows the leading tabs. */
  lemma IndentMatchWhen(line: string)
    ensures var pre := LeadingRun(line, '\t');
      IndentMatch(line).None? <==> pre == |line| || line[pre] != ' '
  {
    var pre := LeadingRun(line, '\t');
    if pre < |line| {
      assert line[pre..][0] == line[pre];
    }
  }

  /**
   * A match splits the line into the leading tabs, the spaces, the tabs after
   * them and the rest; with no tabs after the spaces, the rest starts with
   * neither a space nor a tab.
   */
  lemma IndentMatchSplits(line: string)
    requires IndentMatch(line).Some?
    ensures var g := IndentMatch(line).value;
      line == Repeat('\t', g.preTabs) + Repeat(' ', g.spaces) + Repeat('\t', g.postTabs) + g.rest
    ensures var g := IndentMatch(line).value;
      g.postTabs == 0 ==> g.rest == [] || (g.rest[0] != ' ' && g.rest[0] != '\t')
  {
    var g := IndentMatch(line).value;
    var pre := LeadingRun(line, '\t');
    var sp := LeadingRun(line[pre..], ' ');
    var post := LeadingRun(line[pre + sp..], '\t');
    assert g == IndentGroups(pre, sp, post, line[pre + sp + post..]);
    RunsSplit(line, pre, sp, post);
  }

  lemma RunsSplit(line: string, pre: nat, sp: nat, post: nat)
    requires pre == LeadingRun(line, '\t') && sp == LeadingRun(line[pre..], ' ')
    requires post == LeadingRun(line[pre + sp..], '\t')
    ensures line == Repeat('\t', pre) + Repeat(' ', sp) + Repeat('\t', post) + line[pre + sp + post..]
    ensures var r := line[pre + sp + post..]; post == 0 ==> r == [] || (r[0] != ' ' && r[0] != '\t')
  {
    TabPrefix(line);
    SpacePrefix(line[pre..]);
    TabPrefix(line[pre + sp..]);
    SplitAtRuns(line, pre, sp, post);
    if post == 0 && pre + sp < |line| {
      RunEnd(line, pre, sp);
      assert line[pre + sp + post..][0] == line[pre + sp];
    }
  }

  lemma SplitAtRuns(line: string, pre: nat, sp: nat, post: nat)
    requires pre + sp + post <= |line|
    requires line[..pre] == Repeat('\t', pre) && line[pre..][..sp] == Repeat(' ', sp) && line[pre + sp..][..post] == Repeat('\t', post)
    ensures line == Repeat('\t', pre) + Repeat(' ', sp) + Repeat('\t', post) + line[pre + sp + post..]
  {
    SliceOfSlice(line, pre, sp);
    SliceOfSlice(line, pre + sp, post);
    Cut(line, pre, pre + sp, pre + sp + post, Repeat('\t', pre), Repeat(' ', sp), Repeat('\t', post));
  }

  lemma SliceOfSlice(s: string, i: nat, n: nat)
    requires i + n <= |s|
    ensures s[i..][..n] == s[i..i + n]
  {
  }

  /** A string cut at three points is its four pieces, given what the first three are. */
  lemma Cut(line: string, i: nat, j: nat, k: nat, a: string, b: string, c: string)
    requires i <= j <= k <= |line|
    requires line[..i] == a && line[i..j] == b && line[j..k] == c
    ensures line == a + b + c + line[k..]
  {
    assert line == line[..i] + line[i..j] + line[j..k] + line[k..];
  }

  lemma RunEnd(line: string, pre: nat, sp: nat)
    requires pre + sp < |line| && sp == LeadingRun(line[pre..], ' ')
    requires LeadingRun(line[pre + sp..], '\t') == 0
    ensures line[pre + sp] != ' ' && line[pre + sp] != '\t'
  {
    assert line[pre..][sp] == line[pre + sp] && line[pre + sp..][0] == line[pre + sp];
  }

  lemma TabPrefix(s: string)
    ensures s[..LeadingRun(s, '\t')] == Repeat('\t', LeadingRun(s, '\t'))
  {
  }

  lemma SpacePrefix(s: string)
    ensures s[..LeadingRun(s, ' ')] == Repeat(' ', LeadingRun(s, ' '))
  {
  }

  /** Tabs worth of one run of spaces: a fraction, or truncated when tabs follow the spaces. */
  function TabsFromSpaces(spaces: nat, postTabs: nat, tabSize: int): (r: real)
    requires tabSize >= 1
    ensures r >= 0.0
  {
    var fromSpaces := spaces as real / tabSize as real + 0.00001;
    if postTabs > 0 then Trunc(fromSpaces) as real else fromSpaces
  }

  /**
   * Spaces followed by tabs count in whole tabs only: for any realistic tab
   * size the fudge `0.00001` never lifts the count past `spaces // tabSize`.
   * Spaces with no tabs after them count as a fraction just above `spaces / tabSize`.
   */
  lemma TabsFromSpacesWhole(spaces: nat, postTabs: nat, tabSize: int)
    requires 1 <= tabSize < 100000
    ensures postTabs > 0 ==> TabsFromSpaces(spaces, postTabs, tabSize) == (spaces / tabSize) as real
    ensures postTabs == 0 ==> TabsFromSpaces(spaces, postTabs, tabSize) > spaces as real / tabSize as real
  {
    var q, rem := spaces / tabSize, spaces % tabSize;
    RealQuotient(spaces, tabSize);
    FractionBelowOne(rem, tabSize);
    TruncNear(q, q as real + rem as real / tabSize as real + 0.00001);
  }

  /** Real division splits into the integer quotient and the remainder's fraction. */
  lemma RealQuotient(n: nat, tabSize: int)
    requires tabSize >= 1
    ensures n as real / tabSize as real == (n / tabSize) as real + (n % tabSize) as real / tabSize as real
  {
    var q, rem, t := n / tabSize, n % tabSize, tabSize as real;
    assert n == q * tabSize + rem;
    IntMulReal(q, tabSize);
    DivSum(q as real * t, rem as real, t);
    assert q as real * t / t == q as real;
  }

  lemma FractionBelowOne(rem: nat, tabSize: int)
    requires rem < tabSize < 100000
    ensures 0.0 <= rem as real / tabSize as real + 0.00001 < 1.0
  {
    var t := tabSize as real;
    assert rem as real <= t - 1.0;
    assert rem as real / t <= (t - 1.0) / t;
    assert (t - 1.0) / t == 1.0 - 1.0 / t;
    assert 1.0 / t > 0.00001;
  }

  /** The indent, in tabs, of all whitespace runs the regex consumes, and the text left after them. */
  function IndentScan(line: string, tabSize: int): (r: (real, string))
    requires tabSize >= 1
    ensures r.0 >= 0.0 && |r.1| <= |line|
    decreases |line|
  {
    match IndentMatch(line)
    case None => (0.0, line)
    case Some(g) =>
      var next := IndentScan(g.rest, tabSize);
      (g.preTabs as real + TabsFromSpaces(g.spaces, g.postTabs, tabSize) + g.postTabs as real + next.0, next.1)
  }

  /** The scan stops at a suffix of the line that the indent regex no longer matches. */
  lemma {:induction false} IndentScanRest(line: string, tabSize: int)
    requires tabSize >= 1
    ensures IsSuffix(IndentScan(line, tabSize).1, line) && IndentMatch(IndentScan(line, tabSize).1).None?
  {
    IndentScanSuffix(line, tabSize);
    IndentScanStops(line, tabSize);
  }

  lemma {:induction false} IndentScanSuffix(line: string, tabSize: int)
    requires tabSize >= 1
    ensures IsSuffix(IndentScan(line, tabSize).1, line)
    decreases |line|
  {
    if IndentMatch(line).Some? {
      var g := IndentMatch(line).value;
      ScanStep(line, tabSize);
      IndentScanSuffix(g.rest, tabSize);
      IndentMatchRest(line);
      SuffixOfSuffix(line, g.rest, IndentScan(g.rest, tabSize).1);
    }
  }

  lemma {:induction false} IndentScanStops(line: string, tabSize: int)
    requires tabSize >= 1
    ensures IndentMatch(IndentScan(line, tabSize).1).None?
    decreases |line|
  {
    if IndentMatch(line).Some? {
      var g := IndentMatch(line).value;
      ScanStep(line, tabSize);
      IndentScanStops(g.rest, tabSize);
    }
  }

  /** `s` ends with `u`. */
  predicate IsSuffix(u: string, s: string)
  {
    |u| <= |s| && u == s[|s| - |u|..]
  }

  /** What the indent regex leaves is a suffix of the line. */
  lemma IndentMatchRest(line: string)
    requires IndentMatch(line).Some?
    ensures IsSuffix(IndentMatch(line).value.rest, line)
  {
  }

  lemma SuffixOfSuffix(s: string, t: string, u: string)
    requires IsSuffix(t, s) && IsSuffix(u, t)
    ensures IsSuffix(u, s)
  {
    assert forall k :: 0 <= k < |u| ==> u[k] == s[|s| - |u| + k];
  }

  lemma ScanStep(line: string, tabSize: int)
    requires tabSize >= 1 && IndentMatch(line).Some?
    ensures var g := IndentMatch(line).value;
      var next := IndentScan(g.rest, tabSize);
      IndentScan(line, tabSize) ==
        (g.preTabs as real + TabsFromSpaces(g.spaces, g.postTabs, tabSize) + g.postTabs as real + next.0, next.1)
  {
  }

  /** What `__recover_tab_indents` makes of a line: the rounded indent as tabs, then the text. */
  function RecoverTabs(line: string, tabSize: int): string
    requires tabSize >= 1
  {
    var scan := IndentScan(line, tabSize);
    if scan.0 < 0.5 then scan.1 else Repeat('\t', Trunc(scan.0 + 0.50001)) + scan.1
  }

  /**
   * The recovered line is a run of tabs followed by the text the indent scan
   * leaves; there is at least one tab exactly when the indent is half a tab or more.
   */
  lemma RecoverTabsShape(line: string, tabSize: int)
    requires tabSize >= 1
    ensures var r, text := RecoverTabs(line, tabSize), IndentScan(line, tabSize).1;
      |r| >= |text| && r == Repeat('\t', |r| - |text|) + text
    ensures IndentScan(line, tabSize).0 < 0.5 <==> |RecoverTabs(line, tabSize)| == |IndentScan(line, tabSize).1|
  {
  }

  /** A line with no space among its leading whitespace is returned as it is. */
  lemma RecoverTabsKeepsTabIndent(line: string, tabSize: int)
    requires tabSize >= 1
    requires var pre := LeadingRun(line, '\t'); pre == |line| || line[pre] != ' '
    ensures RecoverTabs(line, tabSize) == line
  {
    IndentMatchWhen(line);
  }

  lemma ScanOfText(text: string, tabSize: int)
    requires tabSize >= 1
    requires text == [] || (text[0] != ' ' && text[0] != '\t')
    ensures IndentScan(text, tabSize) == (0.0, text)
  {
    assert LeadingRun(text, '\t') == 0;
    assert text[0..] == text;
  }

  lemma IndentOfSpaces(k: nat, text: string, tabSize: int)
    requires tabSize >= 1 && k >= 1
    requires text == [] || (text[0] != ' ' && text[0] != '\t')
    ensures IndentScan(Repeat(' ', k) + text, tabSize) == (k as real / tabSize as real + 0.00001, text)
  {
    MatchSpaces(k, text);
    ScanStep(Repeat(' ', k) + text, tabSize);
    ScanOfText(text, tabSize);
  }

  /** The indent regex on spaces before a text: no leading tabs, `k` spaces, no tabs after them. */
  lemma MatchSpaces(k: nat, text: string)
    requires k >= 1
    requires text == [] || (text[0] != ' ' && text[0] != '\t')
    ensures IndentMatch(Repeat(' ', k) + text) == Some(IndentGroups(0, k, 0, text))
  {
    var line := Repeat(' ', k) + text;
    assert LeadingRun(line, '\t') == 0;
    assert line[0..] == line;
    assert LeadingRun(line, ' ') == k by { RunOf(' ', k, text); }
    assert LeadingRun(line[k..], '\t') == 0 by { assert line[k..] == text; }
    assert line[k + 0..] == text;
  }

  /** `k` copies of `c` before a text not starting with `c` make a leading run of exactly `k`. */
  lemma RunOf(c: char, k: nat, text: string)
    requires text == [] || text[0] != c
    ensures LeadingRun(Repeat(c, k) + text, c) == k
  {
    if k > 0 {
      assert (Repeat(c, k) + text)[1..] == Repeat(c, k - 1) + text;
      RunOf(c, k - 1, text);
    } else {
      assert Repeat(c, k) + text == text;
    }
  }

  lemma MulDiv(m: nat, tabSize: int)
    requires tabSize >= 1
    ensures (m * tabSize) as real / tabSize as real == m as real
  {
    IntMulReal(m, tabSize);
  }

  /**
   * Recovery undoes tab expansion: `m` tabs expanded to `m * tabSize` spaces
   * come back as `m` tabs in front of the same text.
   */
  lemma RecoverTabsRoundTrip(m: nat, text: string, tabSize: int)
    requires tabSize >= 1
    requires text == [] || (text[0] != ' ' && text[0] != '\t')
    ensures RecoverTabs(Repeat(' ', m * tabSize) + text, tabSize) == Repeat('\t', m) + text
  {
    if m == 0 {
      assert Repeat(' ', 0) + text == text && Repeat('\t', 0) + text == text;
      ScanOfText(text, tabSize);
    } else {
      MulAtLeast(m, tabSize);
      WholeTabsCount(m, tabSize);
      RecoverSpaces(m * tabSize, text, tabSize, m);
    }
  }

  /** `RecoverTabs` of spaces before a text, when the spaces' indent rounds to `c >= 1` tabs. */
  lemma RecoverSpaces(k: nat, text: string, tabSize: int, c: nat)
    requires tabSize >= 1 && k >= 1
    requires text == [] || (text[0] != ' ' && text[0] != '\t')
    requires var n := k as real / tabSize as real + 0.00001; n >= 0.5 && Trunc(n + 0.50001) == c
    ensures RecoverTabs(Repeat(' ', k) + text, tabSize) == Repeat('\t', c) + text
  {
    IndentOfSpaces(k, text, tabSize);
    RecoverOfScan(Repeat(' ', k) + text, tabSize, k as real / tabSize as real + 0.00001, text, c);
  }

  /** A scanned indent of half a tab or more that rounds to `c` becomes `c` tabs before the text. */
  lemma RecoverOfScan(line: string, tabSize: int, n: real, text: string, c: nat)
    requires tabSize >= 1 && IndentScan(line, tabSize) == (n, text)
    requires n >= 0.5 && Trunc(n + 0.50001) == c
    ensures RecoverTabs(line, tabSize) == Repeat('\t', c) + text
  {
  }

  lemma TruncNear(k: int, x: real)
    requires k >= 0 && k as real <= x < k as real + 1.0
    ensures Trunc(x) == k
  {
  }

  /** `m >= 1` tabs' worth of spaces make an indent that rounds to `m` tabs. */
  lemma WholeTabsCount(m: nat, tabSize: int)
    requires tabSize >= 1 && m >= 1
    ensures var n := (m * tabSize) as real / tabSize as real + 0.00001;
      n >= 0.5 && Trunc(n + 0.50001) == m
  {
    MulDiv(m, tabSize);
    TruncNear(m, m as real + 0.00001 + 0.50001);
  }

  lemma MulAtLeast(m: nat, tabSize: int)
    requires m >= 1 && tabSize >= 1
    ensures m * tabSize >= m
  {
  }

  /** A half tab of spaces or more, after whole tabs' worth of spaces, rounds up to one more tab. */
  lemma RecoverTabsHalfUp(m: nat, h: nat, text: string, tabSize: int)
    requires tabSize >= 1 && h < tabSize && 2 * h >= tabSize
    requires text == [] || (text[0] != ' ' && text[0] != '\t')
    ensures RecoverTabs(Repeat(' ', m * tabSize + h) + text, tabSize) == Repeat('\t', m + 1) + text
  {
    HalfUpCount(m, h, tabSize);
    RecoverSpaces(m * tabSize + h, text, tabSize, m + 1);
  }

  /**
   * Less than half a tab of spaces after whole tabs' worth of spaces is
   * dropped, including when there are no whole tabs at all; the tab-size bound
   * keeps the fudges `0.00001` and `0.50001` from rounding it up.
   */
  lemma RecoverTabsRoundsDown(m: nat, h: nat, text: string, tabSize: int)
    requires 1 <= tabSize < 25000 && 2 * h < tabSize
    requires text == [] || (text[0] != ' ' && text[0] != '\t')
    ensures RecoverTabs(Repeat(' ', m * tabSize + h) + text, tabSize) == Repeat('\t', m) + text
  {
    if m == 0 {
      assert m * tabSize + h == h;
      RecoverTabsUnderHalf(h, text, tabSize);
      assert Repeat('\t', 0) + text == text;
    } else {
      RoundDownCount(m, h, tabSize);
      RecoverSpaces(m * tabSize + h, text, tabSize, m);
    }
  }

  /** Under half a tab of spaces before a text, and nothing else, is dropped. */
  lemma RecoverTabsUnderHalf(h: nat, text: string, tabSize: int)
    requires 1 <= tabSize < 50000 && 2 * h < tabSize
    requires text == [] || (text[0] != ' ' && text[0] != '\t')
    ensures RecoverTabs(Repeat(' ', h) + text, tabSize) == text
  {
    if h == 0 {
      assert Repeat(' ', 0) + text == text;
      ScanOfText(text, tabSize);
    } else {
      UnderHalfBelow(h, tabSize);
      IndentOfSpaces(h, text, tabSize);
    }
  }

  /**
   * The bound in RecoverTabsUnderHalf is needed: at tab size 100001, 50000
   * spaces are under half a tab, yet the fudge `0.00001` lifts them to
   * 0.500005 tabs, and they come back as one tab.
   */
  lemma UnderHalfRoundsUpAtLargeTabSize(text: string)
    requires text == [] || (text[0] != ' ' && text[0] != '\t')
    ensures 2 * 50000 < 100001
    ensures RecoverTabs(Repeat(' ', 50000) + text, 100001) == Repeat('\t', 1) + text
  {
    var n := 50000 as real / 100001 as real + 0.00001;
    IndentOfSpaces(50000, text, 100001);
    assert 0.5 <= n < 0.50001;
    TruncNear(1, n + 0.50001);
    RecoverOfScan(Repeat(' ', 50000) + text, 100001, n, text, 1);
  }

  /** With no whole tabs, the fudge `0.00001` keeps under half a tab below one half for tab sizes under 50000. */
  lemma UnderHalfBelow(h: nat, tabSize: int)
    requires 1 <= tabSize < 50000 && 2 * h < tabSize
    ensures h as real / tabSize as real + 0.00001 < 0.5
  {
    var t := tabSize as real;
    assert 2.0 * h as real <= t - 1.0;
    assert h as real / t <= (t - 1.0) / (2.0 * t);
    assert (t - 1.0) / (2.0 * t) == 0.5 - 1.0 / (2.0 * t);
    assert 1.0 / (2.0 * t) > 0.00001;
  }

  lemma RoundDownCount(m: nat, h: nat, tabSize: int)
    requires 1 <= tabSize < 25000 && 2 * h < tabSize && m >= 1
    ensures m * tabSize + h >= 1
    ensures var n := (m * tabSize + h) as real / tabSize as real + 0.00001;
      n >= 0.5 && Trunc(n + 0.50001) == m
  {
    MulAtLeast(m, tabSize);
    var t := tabSize as real;
    var q := (m * tabSize + h) as real / t;
    assert q == m as real + h as real / t by {
      IntMulReal(m, tabSize);
      DivSum(m as real * t, h as real, t);
      assert m as real * t / t == m as real;
    }
    HalfFractionBelow(h, tabSize);
    TruncNear(m, q + 0.00001 + 0.50001);
  }

  /** Under half a tab, as a fraction of a tab, stays below `0.49998`. */
  lemma HalfFractionBelow(h: nat, tabSize: int)
    requires 1 <= tabSize < 25000 && 2 * h < tabSize
    ensures 0.0 <= h as real / tabSize as real < 0.49998
  {
    var t := tabSize as real;
    assert 2.0 * h as real <= t - 1.0;
    assert h as real / t <= (t - 1.0) / (2.0 * t);
    assert (t - 1.0) / (2.0 * t) == 0.5 - 1.0 / (2.0 * t);
    assert 1.0 / (2.0 * t) > 0.00002;
  }

  lemma HalfUpCount(m: nat, h: nat, tabSize: int)
    requires tabSize >= 1 && h < tabSize && 2 * h >= tabSize
    ensures m * tabSize + h >= 1
    ensures var n := (m * tabSize + h) as real / tabSize as real + 0.00001;
      n >= 0.5 && Trunc(n + 0.50001) == m + 1
  {
    var t := tabSize as real;
    var q := (m * tabSize + h) as real / t;
    assert q == m as real + h as real / t by {
      IntMulReal(m, tabSize);
      DivSum(m as real * t, h as real, t);
      assert m as real * t / t == m as real;
    }
    HalfFraction(h, tabSize);
    TruncNear(m + 1, q + 0.00001 + 0.50001);
  }

  lemma DivSum(a: real, b: real, t: real)
    requires t > 0.0
    ensures (a + b) / t == a / t + b / t
  {
  }

  lemma HalfFraction(h: nat, tabSize: int)
    requires tabSize >= 1 && h < tabSize && 2 * h >= tabSize
    ensures 0.5 <= h as real / tabSize as real < 1.0
  {
  }

  /** Fewer spaces than a tab before a tab are dropped: only whole tabs of spaces count there. */
  lemma RecoverTabsDropsPartialTab(h: nat, t: nat, text: string, tabSize: int)
    requires tabSize >= 1 && 1 <= h < tabSize && t >= 1 && tabSize < 100000
    requires text == [] || (text[0] != ' ' && text[0] != '\t')
    ensures RecoverTabs(Repeat(' ', h) + Repeat('\t', t) + text, tabSize) == Repeat('\t', t) + text
  {
    IndentOfSpacesThenTabs(h, t, text, tabSize);
    PartialTabVanishes(h, t, tabSize);
    TruncNear(t, t as real + 0.50001);
    RecoverOfScan(Repeat(' ', h) + Repeat('\t', t) + text, tabSize, t as real, text, t);
  }

  /** Less than a tab of spaces before tabs counts as no tab at all. */
  lemma PartialTabVanishes(h: nat, t: nat, tabSize: int)
    requires 1 <= tabSize < 100000 && h < tabSize && t >= 1
    ensures TabsFromSpaces(h, t, tabSize) == 0.0
  {
    TabsFromSpacesWhole(h, t, tabSize);
    DivOfSmaller(h, tabSize);
  }

  lemma DivOfSmaller(h: nat, tabSize: int)
    requires h < tabSize
    ensures h / tabSize == 0
  {
  }

  lemma IndentOfSpacesThenTabs(h: nat, t: nat, text: string, tabSize: int)
    requires tabSize >= 1 && h >= 1 && t >= 1
    requires text == [] || (text[0] != ' ' && text[0] != '\t')
    ensures IndentScan(Repeat(' ', h) + Repeat('\t', t) + text, tabSize) == (TabsFromSpaces(h, t, tabSize) + t as real, text)
  {
    MatchSpacesThenTabs(h, t, text);
    ScanStep(Repeat(' ', h) + Repeat('\t', t) + text, tabSize);
    ScanOfText(text, tabSize);
  }

  /** The indent regex on spaces, then tabs, before a text: no leading tabs, `h` spaces, `t` tabs. */
  lemma MatchSpacesThenTabs(h: nat, t: nat, text: string)
    requires h >= 1
    requires text == [] || (text[0] != ' ' && text[0] != '\t')
    ensures IndentMatch(Repeat(' ', h) + Repeat('\t', t) + text) == Some(IndentGroups(0, h, t, text))
  {
    var line := Repeat(' ', h) + Repeat('\t', t) + text;
    assert LeadingRun(line, '\t') == 0;
    assert line[0..] == line;
    assert LeadingRun(line, ' ') == h by {
      assert line == Repeat(' ', h) + (Repeat('\t', t) + text);
      RunOf(' ', h, Repeat('\t', t) + text);
    }
    assert line[h..] == Repeat('\t', t) + text;
    assert LeadingRun(line[0 + h..], '\t') == t by { RunOf('\t', t, text); }
    assert line[0 + h + t..] == text;
  }

  // ---------------------------------------------------------------------
  // __join_paragraph_and_format_tabs

  /** `_re_tab_indent_match`: the number of leading tabs and the text after them. */
  function SplitIndent(chunk: string): (r: (nat, string))
    ensures chunk == Repeat('\t', r.0) + r.1
    ensures r.1 == [] || r.1[0] != '\t'
  {
    var n := LeadingRun(chunk, '\t');
    assert chunk == chunk[..n] + chunk[n..];
    (n, chunk[n..])
  }

  /** Each line of a paragraph with its tabs recovered, as (indent, text). */
  function Chunks(paragraph: seq<string>, tabSize: int): (cs: seq<(nat, string)>)
    requires tabSize >= 1
    ensures |cs| == |paragraph|
  {
    if paragraph == [] then []
    else
      Chunks(paragraph[..|paragraph| - 1], tabSize) + [SplitIndent(RecoverTabs(paragraph[|paragraph| - 1], tabSize))]
  }

  /** Consecutive texts of equal indent, gathered into (indent, texts) blocks in order. */
  function Group(items: seq<(nat, string)>): seq<(nat, seq<string>)>
  {
    if items == [] then []
    else
      var g := Group(items[..|items| - 1]);
      var x := items[|items| - 1];
      if |g| > 0 && g[|g| - 1].0 == x.0 then g[..|g| - 1] + [(x.0, g[|g| - 1].1 + [x.1])]
      else g + [(x.0, [x.1])]
  }

  lemma ChunksSnoc(paragraph: seq<string>, i: nat, tabSize: int)
    requires tabSize >= 1 && i < |paragraph|
    ensures Chunks(paragraph[..i + 1], tabSize) ==
      Chunks(paragraph[..i], tabSize) + [SplitIndent(RecoverTabs(paragraph[i], tabSize))]
  {
    assert paragraph[..i + 1][..i] == paragraph[..i];
  }

  lemma GroupSnoc(items: seq<(nat, string)>, x: (nat, string))
    ensures var g := Group(items);
      Group(items + [x]) ==
        if |g| > 0 && g[|g| - 1].0 == x.0 then g[..|g| - 1] + [(x.0, g[|g| - 1].1 + [x.1])]
        else g + [(x.0, [x.1])]
  {
    assert (items + [x])[..|items|] == items;
  }

  /** One more item either extends the pending block or closes it and opens a new one. */
  lemma JoinStep(items: seq<(nat, string)>, done: seq<(nat, seq<string>)>,
                 pendingIndent: nat, pendingChunks: seq<string>, x: (nat, string))
    requires Group(items) == done + (if pendingChunks == [] then [] else [(pendingIndent, pendingChunks)])
    requires pendingChunks == [] ==> done == []
    ensures x.0 == pendingIndent ==>
      Group(items + [x]) == done + [(pendingIndent, pendingChunks + [x.1])]
    ensures x.0 != pendingIndent ==>
      Group(items + [x]) == done + (if pendingChunks == [] then [] else [(pendingIndent, pendingChunks)]) + [(x.0, [x.1])]
  {
    GroupSnoc(items, x);
    var g := Group(items);
    if pendingChunks != [] {
      assert g[|g| - 1] == (pendingIndent, pendingChunks);
      assert g[..|g| - 1] == done;
    } else {
      assert pendingChunks + [x.1] == [x.1];
      assert done + [] == done;
    }
  }

  /** One output line of a block: its indent as tabs, then its texts joined with single spaces. */
  function Render(block: (nat, seq<string>)): string
  {
    Repeat('\t', block.0) + JoinWith(" ", block.1)
  }

  function RenderAll(blocks: seq<(nat, seq<string>)>): (lines: seq<string>)
    ensures |lines| == |blocks|
    ensures forall i :: 0 <= i < |blocks| ==> lines[i] == Render(blocks[i])
  {
    seq(|blocks|, i requires 0 <= i < |blocks| => Render(blocks[i]))
  }

  lemma RenderAllSnoc(blocks: seq<(nat, seq<string>)>, b: (nat, seq<string>))
    ensures RenderAll(blocks + [b]) == RenderAll(blocks) + [Repeat('\t', b.0) + JoinWith(" ", b.1)]
  {
  }

  /** The lines `__join_paragraph_and_format_tabs` yields for a paragraph. */
  function JoinedParagraph(paragraph: seq<string>, tabSize: int): seq<string>
    requires tabSize >= 1
  {
    RenderAll(Group(Chunks(paragraph, tabSize)))
  }

  /** A paragraph yields at least one line when it has any, and never more lines than it has. */
  lemma JoinedParagraphLength(paragraph: seq<string>, tabSize: int)
    requires tabSize >= 1
    ensures var lines := JoinedParagraph(paragraph, tabSize);
      (paragraph == [] <==> lines == []) && |lines| <= |paragraph|
  {
    GroupBlocks(Chunks(paragraph, tabSize));
  }

  function Texts(items: seq<(nat, string)>): seq<string>
  {
    if items == [] then [] else Texts(items[..|items| - 1]) + [items[|items| - 1].1]
  }

  function Flatten(blocks: seq<(nat, seq<string>)>): seq<string>
  {
    if blocks == [] then [] else Flatten(blocks[..|blocks| - 1]) + blocks[|blocks| - 1].1
  }

  /**
   * Grouping loses and reorders nothing: the blocks' texts, concatenated, are
   * the texts in input order; no block is empty, neighbouring blocks differ in
   * indent, and the last block has the last item's indent.
   */
  lemma {:induction false} GroupPartitions(items: seq<(nat, string)>)
    ensures var g := Group(items);
      Flatten(g) == Texts(items) && |g| <= |items| &&
      (forall i :: 0 <= i < |g| ==> g[i].1 != []) &&
      (forall i :: 0 <= i < |g| - 1 ==> g[i].0 != g[i + 1].0) &&
      (items != [] ==> |g| > 0 && g[|g| - 1].0 == items[|items| - 1].0)
  {
    GroupKeepsTexts(items);
    GroupShape(items);
  }

  lemma {:induction false} GroupKeepsTexts(items: seq<(nat, string)>)
    ensures Flatten(Group(items)) == Texts(items)
  {
    if items != [] {
      var init := items[..|items| - 1];
      var x := items[|items| - 1];
      GroupKeepsTexts(init);
      var g := Group(init);
      if |g| > 0 && g[|g| - 1].0 == x.0 {
        var front, last := g[..|g| - 1], g[|g| - 1];
        assert g == front + [last];
        FlattenSnoc(front, last);
        FlattenSnoc(front, (x.0, last.1 + [x.1]));
        assert Flatten(front) + (last.1 + [x.1]) == Flatten(front) + last.1 + [x.1];
      } else {
        FlattenSnoc(g, (x.0, [x.1]));
      }
    }
  }

  lemma {:induction false} GroupShape(items: seq<(nat, string)>)
    ensures var g := Group(items);
      |g| <= |items| &&
      (forall i :: 0 <= i < |g| ==> g[i].1 != []) &&
      (forall i :: 0 <= i < |g| - 1 ==> g[i].0 != g[i + 1].0) &&
      (items != [] ==> |g| > 0 && g[|g| - 1].0 == items[|items| - 1].0)
  {
    GroupBlocks(items);
    GroupIndentsAlternate(items);
  }

  lemma {:induction false} GroupBlocks(items: seq<(nat, string)>)
    ensures var g := Group(items);
      |g| <= |items| &&
      (forall i :: 0 <= i < |g| ==> g[i].1 != []) &&
      (items != [] ==> |g| > 0 && g[|g| - 1].0 == items[|items| - 1].0)
  {
    if items != [] {
      var init := items[..|items| - 1];
      var x := items[|items| - 1];
      GroupBlocks(init);
      var g := Group(init);
      if |g| > 0 && g[|g| - 1].0 == x.0 {
        var g' := g[..|g| - 1] + [(x.0, g[|g| - 1].1 + [x.1])];
        assert forall i :: 0 <= i < |g| - 1 ==> g'[i] == g[i];
      } else {
        var g' := g + [(x.0, [x.1])];
        assert forall i :: 0 <= i < |g| ==> g'[i] == g[i];
      }
    }
  }

  /** Neighbouring blocks have different indents. */
  predicate IndentsAlternate(g: seq<(nat, seq<string>)>)
  {
    forall i :: 0 <= i < |g| - 1 ==> g[i].0 != g[i + 1].0
  }

  lemma {:induction false} GroupIndentsAlternate(items: seq<(nat, string)>)
    ensures IndentsAlternate(Group(items))
  {
    if items != [] {
      var init := items[..|items| - 1];
      var x := items[|items| - 1];
      GroupIndentsAlternate(init);
      var g := Group(init);
      assert IndentsAlternate(g);
      if |g| > 0 && g[|g| - 1].0 == x.0 {
        var g' := g[..|g| - 1] + [(x.0, g[|g| - 1].1 + [x.1])];
        assert Group(items) == g';
        forall i | 0 <= i < |g'| - 1
          ensures g'[i].0 != g'[i + 1].0
        {
          assert g'[i] == g[i] && g'[i + 1].0 == g[i + 1].0;
          assert g[i].0 != g[i + 1].0;
        }
      } else {
        var g' := g + [(x.0, [x.1])];
        assert Group(items) == g';
        forall i | 0 <= i < |g'| - 1
          ensures g'[i].0 != g'[i + 1].0
        {
          assert g'[i] == g[i];
          if i + 1 < |g| {
            assert g'[i + 1] == g[i + 1];
            assert g[i].0 != g[i + 1].0;
          }
        }
      }
    }
  }

  lemma FlattenSnoc(bs: seq<(nat, seq<string>)>, b: (nat, seq<string>))
    ensures Flatten(bs + [b]) == Flatten(bs) + b.1
  {
    assert (bs + [b])[..|bs + [b]| - 1] == bs;
  }

  /** A paragraph whose lines all share one indent is one output line. */
  lemma {:induction false} GroupSameIndent(items: seq<(nat, string)>, k: nat)
    requires items != []
    requires forall i :: 0 <= i < |items| ==> items[i].0 == k
    ensures Group(items) == [(k, Texts(items))]
  {
    var init := items[..|items| - 1];
    if init != [] {
      assert forall i :: 0 <= i < |init| ==> init[i] == items[i];
      GroupSameIndent(init, k);
      var g := Group(init);
      assert g[|g| - 1].0 == k && g[..|g| - 1] == [];
    } else {
      assert |items| == 1 && items[0].0 == k;
      assert Group(init) == [] && Texts(init) == [];
      assert Texts(items) == [items[0].1];
      assert Group(items) == [] + [(items[0].0, [items[0].1])];
    }
  }

  // ---------------------------------------------------------------------
  // __formatted_paragraphs_gen, __call__, from_object

  /** The right-stripped lines of a document. */
  function StrippedLines(doc: string): seq<string>
  {
    var lines := SplitLines(doc);
    seq(|lines|, i requires 0 <= i < |lines| => RStrip(lines[i]))
  }

  /** One stripped line per line of the document: the line less its trailing whitespace. */
  lemma StrippedLinesShape(doc: string)
    ensures var r, lines := StrippedLines(doc), SplitLines(doc);
      |r| == |lines| &&
      forall i :: 0 <= i < |r| ==>
        IsPrefix(r[i], lines[i]) && (r[i] == [] || !IsSpace(r[i][|r[i]| - 1])) &&
        forall j :: |r[i]| <= j < |lines[i]| ==> IsSpace(lines[i][j])
  {
  }

  /** `s` starts with `u`. */
  predicate IsPrefix(u: string, s: string)
  {
    |u| <= |s| && u == s[..|u|]
  }

  predicate AllNonEmpty(lines: seq<string>)
  {
    forall i :: 0 <= i < |lines| ==> lines[i] != []
  }

  /**
   * The output for the lines still to read, given the paragraph gathered so
   * far: a non-empty line extends the paragraph; an empty one ends it, or, with
   * no paragraph open, is kept as an empty output line.
   */
  function Emit(cur: seq<string>, rest: seq<string>, tabSize: int): seq<string>
    requires tabSize >= 1
    decreases |rest|
  {
    if rest == [] then (if cur != [] then JoinedParagraph(cur, tabSize) else [])
    else if rest[0] != [] then Emit(cur + [rest[0]], rest[1..], tabSize)
    else if cur != [] then JoinedParagraph(cur, tabSize) + Emit([], rest[1..], tabSize)
    else [""] + Emit([], rest[1..], tabSize)
  }

  lemma EmitStep(cur: seq<string>, rest: seq<string>, tabSize: int)
    requires tabSize >= 1 && rest != []
    ensures rest[0] != [] ==> Emit(cur, rest, tabSize) == Emit(cur + [rest[0]], rest[1..], tabSize)
    ensures rest[0] == [] && cur != [] ==>
      Emit(cur, rest, tabSize) == JoinedParagraph(cur, tabSize) + Emit([], rest[1..], tabSize)
    ensures rest[0] == [] && cur == [] ==> Emit(cur, rest, tabSize) == [""] + Emit([], rest[1..], tabSize)
  {
  }

  /** One line of the loop in `__formatted_paragraphs_gen`: the output so far plus what the rest emits stays the whole output. */
  lemma EmitAdvance(out: seq<string>, cur: seq<string>, lines: seq<string>, j: nat, tabSize: int)
    requires tabSize >= 1 && j < |lines|
    requires out + Emit(cur, lines[j..], tabSize) == Emit([], lines, tabSize)
    ensures lines[j] != [] ==> out + Emit(cur + [lines[j]], lines[j + 1..], tabSize) == Emit([], lines, tabSize)
    ensures lines[j] == [] && cur != [] ==>
      (out + JoinedParagraph(cur, tabSize)) + Emit([], lines[j + 1..], tabSize) == Emit([], lines, tabSize)
    ensures lines[j] == [] && cur == [] ==> (out + [""]) + Emit([], lines[j + 1..], tabSize) == Emit([], lines, tabSize)
  {
    var rest := lines[j..];
    assert rest[0] == lines[j] && rest[1..] == lines[j + 1..];
    EmitStep(cur, rest, tabSize);
    if lines[j] == [] {
      var tail := Emit([], lines[j + 1..], tabSize);
      if cur != [] {
        AppendAssoc(out, JoinedParagraph(cur, tabSize), tail);
      } else {
        AppendAssoc(out, [""], tail);
      }
    }
  }

  /** Once every line is read, what is left to emit is the paragraph still being gathered. */
  lemma EmitFinish(out: seq<string>, cur: seq<string>, lines: seq<string>, tabSize: int)
    requires tabSize >= 1
    requires out + Emit(cur, lines[|lines|..], tabSize) == Emit([], lines, tabSize)
    ensures cur != [] ==> out + JoinedParagraph(cur, tabSize) == Emit([], lines, tabSize)
    ensures cur == [] ==> out == Emit([], lines, tabSize)
  {
    assert lines[|lines|..] == [];
    assert out + [] == out;
  }

  lemma AppendAssoc(a: seq<string>, b: seq<string>, c: seq<string>)
    ensures (a + b) + c == a + (b + c)
  {
  }

  /** All lines `__formatted_paragraphs_gen` yields, the tab size clamped to at least 1. */
  function Formatted(doc: string, tabSize: int): seq<string>
  {
    if IsBlank(doc) then [] else Emit([], StrippedLines(doc), Max(tabSize, 1))
  }

  /** Formatting never yields more lines than the document has. */
  lemma FormattedLength(doc: string, tabSize: int)
    ensures |Formatted(doc, tabSize)| <= |SplitLines(doc)|
  {
    if !IsBlank(doc) {
      EmitLength([], StrippedLines(doc), Max(tabSize, 1));
    }
  }

  /** Each output line comes from at least one line of the paragraph being gathered or still to read. */
  lemma {:induction false} EmitLength(cur: seq<string>, rest: seq<string>, tabSize: int)
    requires tabSize >= 1
    ensures |Emit(cur, rest, tabSize)| <= |cur| + |rest|
    decreases |rest|
  {
    if rest == [] {
      JoinedParagraphLength(cur, tabSize);
    } else if rest[0] != [] {
      EmitLength(cur + [rest[0]], rest[1..], tabSize);
    } else {
      JoinedParagraphLength(cur, tabSize);
      EmitLength([], rest[1..], tabSize);
    }
  }

  function Blanks(k: nat): (s: seq<string>)
    ensures |s| == k && forall i :: 0 <= i < k ==> s[i] == ""
  {
    seq(k, _ => "")
  }

  lemma {:induction false} EmitExtends(cur: seq<string>, p: seq<string>, rest: seq<string>, tabSize: int)
    requires tabSize >= 1 && AllNonEmpty(p)
    ensures Emit(cur, p + rest, tabSize) == Emit(cur + p, rest, tabSize)
    decreases |p|
  {
    if p == [] {
      assert p + rest == rest && cur + p == cur;
    } else {
      assert (p + rest)[0] == p[0] && (p + rest)[1..] == p[1..] + rest;
      assert (cur + [p[0]]) + p[1..] == cur + p;
      EmitExtends(cur + [p[0]], p[1..], rest, tabSize);
    }
  }

  /** A run of empty lines with no paragraph open: each line becomes one empty output line. */
  lemma {:induction false} EmitBlanks(k: nat, rest: seq<string>, tabSize: int)
    requires tabSize >= 1
    ensures Emit([], Blanks(k) + rest, tabSize) == Blanks(k) + Emit([], rest, tabSize)
  {
    if k > 0 {
      var s := Blanks(k) + rest;
      assert s[0] == "" && s[1..] == Blanks(k - 1) + rest;
      EmitBlanks(k - 1, rest, tabSize);
      assert [""] + Blanks(k - 1) == Blanks(k);
    } else {
      assert Blanks(0) + rest == rest;
    }
  }

  /**
   * A paragraph followed by `k >= 1` empty lines: the paragraph's lines, then
   * `k - 1` empty lines (the first empty line only ends the paragraph), then the rest.
   */
  lemma ParagraphThenBlanks(p: seq<string>, k: nat, rest: seq<string>, tabSize: int)
    requires tabSize >= 1 && p != [] && AllNonEmpty(p) && k >= 1
    ensures Emit([], p + Blanks(k) + rest, tabSize) ==
      JoinedParagraph(p, tabSize) + Blanks(k - 1) + Emit([], rest, tabSize)
  {
    var s := Blanks(k) + rest;
    AppendAssoc(p, Blanks(k), rest);
    EmitExtends([], p, s, tabSize);
    assert [] + p == p;
    BlanksFront(k, rest);
    EmitStep(p, s, tabSize);
    EmitBlanks(k - 1, rest, tabSize);
    AppendAssoc(JoinedParagraph(p, tabSize), Blanks(k - 1), Emit([], rest, tabSize));
  }

  lemma BlanksFront(k: nat, rest: seq<string>)
    requires k >= 1
    ensures var s := Blanks(k) + rest; s != [] && s[0] == "" && s[1..] == Blanks(k - 1) + rest
  {
    var s := Blanks(k) + rest;
    assert s[1..] == Blanks(k - 1) + rest;
  }

  /** A document of one continuous paragraph is that paragraph's joined lines. */
  lemma OneParagraph(p: seq<string>, tabSize: int)
    requires tabSize >= 1 && p != [] && AllNonEmpty(p)
    ensures Emit([], p, tabSize) == JoinedParagraph(p, tabSize)
  {
    EmitExtends([], p, [], tabSize);
    assert p + [] == p && [] + p == p;
  }

  /** An empty or whitespace-only document formats to no lines, so to the empty string. */
  lemma BlankDocFormatsEmpty(doc: string, tabSize: int)
    requires IsBlank(doc)
    ensures Formatted(doc, tabSize) == [] && JoinWith("\n", Formatted(doc, tabSize)) == ""
  {
  }

  /** `DocStringFormatter`: a docstring and the tab size spaces are measured in. */
  class DocStringFormatter {
    var doc: string
    var tabSize: int

    constructor (doc: string, tabSize: int)
      ensures this.doc == doc && this.tabSize == tabSize
    {
      this.doc := doc;
      this.tabSize := tabSize;
    }

    /** `__recover_tab_indents`: turns the line's indenting spaces back into tabs, half tabs rounded up. */
    method RecoverTabIndents(line: string) returns (r: string)
      requires tabSize >= 1 && line != []
      ensures r == RecoverTabs(line, tabSize)
    {
      var nTabs := 0.0;
      var rest := line;
      var m := IndentMatch(rest);
      while m.Some?
        invariant m == IndentMatch(rest)
        invariant nTabs + IndentScan(rest, tabSize).0 == IndentScan(line, tabSize).0
        invariant IndentScan(rest, tabSize).1 == IndentScan(line, tabSize).1
        decreases |rest|
      {
        var g := m.value;
        var fromSpaces := TabsFromSpaces(g.spaces, g.postTabs, tabSize);
        ScanStep(rest, tabSize);
        nTabs := nTabs + g.preTabs as real + fromSpaces + g.postTabs as real;
        rest := g.rest;
        m := IndentMatch(rest);
      }
      assert IndentScan(rest, tabSize) == (0.0, rest);
      assert IndentScan(line, tabSize) == (nTabs, rest);
      if nTabs < 0.5 {
        return rest;
      }
      r := Repeat('\t', Trunc(nTabs + 0.50001)) + rest;
    }

    /**
     * `__join_paragraph_and_format_tabs`: recovers each line's tabs and joins
     * runs of lines with the same indent into one output line.
     */
    method JoinParagraph(paragraph: seq<string>) returns (blocks: seq<string>)
      requires tabSize >= 1 && AllNonEmpty(paragraph)
      ensures blocks == JoinedParagraph(paragraph, tabSize)
    {
      var pendingIndent: nat := 0;
      var pendingChunks: seq<string> := [];
      ghost var done: seq<(nat, seq<string>)> := [];
      blocks := [];
      for i := 0 to |paragraph|
        invariant blocks == RenderAll(done)
        invariant Group(Chunks(paragraph[..i], tabSize)) ==
          done + (if pendingChunks == [] then [] else [(pendingIndent, pendingChunks)])
        invariant i > 0 <==> pendingChunks != []
        invariant i == 0 ==> done == []
      {
        var chunk := RecoverTabIndents(paragraph[i]);
        var curIndent: nat := 0;
        var n := LeadingRun(chunk, '\t');
        if n > 0 {
          curIndent := n;
          chunk := chunk[n..];
        } else {
          assert chunk[0..] == chunk;
        }
        assert (curIndent, chunk) == SplitIndent(RecoverTabs(paragraph[i], tabSize));
        ChunksSnoc(paragraph, i, tabSize);
        JoinStep(Chunks(paragraph[..i], tabSize), done, pendingIndent, pendingChunks, (curIndent, chunk));
        if curIndent == pendingIndent {
          pendingChunks := pendingChunks + [chunk];
        } else {
          if pendingChunks != [] {
            RenderAllSnoc(done, (pendingIndent, pendingChunks));
            blocks := blocks + [Repeat('\t', pendingIndent) + JoinWith(" ", pendingChunks)];
            done := done + [(pendingIndent, pendingChunks)];
            pendingChunks := [];
          }
          pendingChunks := [chunk];
          pendingIndent := curIndent;
        }
      }
      assert paragraph[..|paragraph|] == paragraph;
      if pendingChunks != [] {
        RenderAllSnoc(done, (pendingIndent, pendingChunks));
        blocks := blocks + [Repeat('\t', pendingIndent) + JoinWith(" ", pendingChunks)];
        done := done + [(pendingIndent, pendingChunks)];
      }
    }

    /**
     * `__formatted_paragraphs_gen`: nothing for a blank document; otherwise the
     * tab size is clamped to at least 1 and the right-stripped lines are
     * gathered into paragraphs.
     */
    method FormattedParagraphs() returns (out: seq<string>)
      modifies this
      ensures doc == old(doc)
      ensures tabSize == if IsBlank(doc) then old(tabSize) else Max(old(tabSize), 1)
      ensures out == Formatted(doc, old(tabSize))
    {
      out := [];
      if doc == [] || IsBlank(doc) {
        return;
      }

      tabSize := Max(tabSize, 1);
      var lines := StrippedLines(doc);
      ghost var ts := tabSize;
      var curParagraph: seq<string> := [];
      for j := 0 to |lines|
        invariant doc == old(doc) && tabSize == ts == Max(old(tabSize), 1)
        invariant AllNonEmpty(curParagraph)
        invariant out + Emit(curParagraph, lines[j..], ts) == Emit([], lines, ts)
      {
        EmitAdvance(out, curParagraph, lines, j, ts);
        var line := lines[j];
        if line != [] {
          curParagraph := curParagraph + [line];
        } else if curParagraph != [] {
          var blocks := JoinParagraph(curParagraph);
          out := out + blocks;
          curParagraph := [];
        } else {
          out := out + [""];
        }
      }
      EmitFinish(out, curParagraph, lines, ts);
      if curParagraph != [] {
        var blocks := JoinParagraph(curParagraph);
        out := out + blocks;
      }
    }

    /** `__call__`: the formatted lines joined with newlines; as a side effect the tab size is clamped. */
    method Call() returns (text: string)
      modifies this
      ensures doc == old(doc)
      ensures tabSize == if IsBlank(old(doc)) then old(tabSize) else Max(old(tabSize), 1)
      ensures text == JoinWith("\n", Formatted(old(doc), old(tabSize)))
    {
      var lines := FormattedParagraphs();
      text := JoinWith("\n", lines);
    }
  }

  /** `from_object`, given the object's docstring if it has one: empty text when there is none. */
  method FromObject(doc: Option<string>, tabSize: int := 8) returns (text: string)
    ensures doc.None? || doc.value == [] ==> text == ""
    ensures doc.Some? ==> text == JoinWith("\n", Formatted(doc.value, tabSize))
  {
    if doc.None? || doc.value == [] {
      return "";
    }
    var formatter := new DocStringFormatter(doc.value, tabSize);
    text := formatter.Call();
  }
}
