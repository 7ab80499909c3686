/** The forms of lines, written out and read back: fences, headings, page headings, table rows and rules. */
module LineForms {
  import opened Text
  import opened Options
  import opened Markup
  import opened Sections

  function Rep(c: char, n: nat): (s: string)
    ensures |s| == n && forall i :: 0 <= i < n ==> s[i] == c
  {
    seq(n, i requires 0 <= i < n => c)
  }

  lemma {:induction false} RunOfRep(c: char, n: nat, rest: string)
    requires rest != "" ==> rest[0] != c
    ensures RunOf(c, Rep(c, n) + rest) == n
  {
    if n == 0 {
      assert Rep(c, 0) + rest == rest;
    } else {
      assert (Rep(c, n) + rest)[1..] == Rep(c, n - 1) + rest;
      RunOfRep(c, n - 1, rest);
    }
  }

  // A text begins with exactly the run that is counted.
  lemma {:induction false} RunIsRep(c: char, s: string)
    ensures s[..RunOf(c, s)] == Rep(c, RunOf(c, s))
    ensures RunOf(c, s) < |s| ==> s[RunOf(c, s)] != c
  {
    if s != "" && s[0] == c {
      var n := RunOf(c, s[1..]);
      RunIsRep(c, s[1..]);
      assert s[..n + 1] == [c] + s[1..][..n];
      assert Rep(c, n + 1) == [c] + Rep(c, n);
    } else {
      assert s[..0] == Rep(c, 0);
    }
  }

  // ----- fences

  predicate IsMark(c: char) {
    c == '`' || c == '~'
  }

  // Some white space, `n` marks, and whatever does not go on with the mark.
  predicate WrittenAs(line: string, c: char, n: nat, indent: string, info: string) {
    Blank(indent) && (info != "" ==> info[0] != c) && line == indent + (Rep(c, n) + info)
  }

  ghost predicate WrittenFence(line: string, c: char, n: nat) {
    exists indent, info :: WrittenAs(line, c, n, indent, info)
  }

  /** A line is a fence exactly when it is written as three or more backticks or tildes, indented or not. */
  lemma FenceIsWritten(line: string, c: char, n: nat)
    ensures DetectFence(line) == Some(Fence(c, n)) <==> IsMark(c) && n >= 3 && WrittenFence(line, c, n)
  {
    if IsMark(c) && n >= 3 && WrittenFence(line, c, n) {
      var indent, info :| WrittenAs(line, c, n, indent, info);
      LeftOfBlank(indent, Rep(c, n) + info);
      RunOfRep(c, n, info);
    }
    if DetectFence(line) == Some(Fence(c, n)) {
      FenceIsRun(line, c, n);
    }
  }

  lemma FenceIsRun(line: string, c: char, n: nat)
    requires DetectFence(line) == Some(Fence(c, n))
    ensures IsMark(c) && n >= 3 && WrittenFence(line, c, n)
  {
    var t := StripLeft(line);
    var indent := StripLeftCuts(line);
    RunIsRep(t[0], t);
    RunSplits(t, c, n);
    assert WrittenAs(line, c, n, indent, t[n..]);
  }

  lemma RunSplits(t: string, c: char, n: nat)
    requires n <= |t| && t[..n] == Rep(c, n)
    ensures t == Rep(c, n) + t[n..]
  {
  }

  // A line that closes a code block of `n` marks `c`.
  ghost predicate ClosesBlock(line: string, c: char, n: nat) {
    exists m :: m >= n && WrittenFence(line, c, m)
  }

  /** Inside a code block of three or more marks the block stays open until a line of as many marks or more. */
  lemma CodeStaysOpen(c: char, n: nat, line: string)
    requires IsMark(c) && n >= 3
    ensures NextFence(Some(Fence(c, n)), line) == if ClosesBlock(line, c, n) then None else Some(Fence(c, n))
    ensures NextFence(None, line) == DetectFence(line)
  {
    if ClosesBlock(line, c, n) {
      var m :| m >= n && WrittenFence(line, c, m);
      FenceIsWritten(line, c, m);
    } else if DetectFence(line).Some? {
      var fence := DetectFence(line).value;
      FenceIsWritten(line, fence.mark, fence.length);
    }
  }

  // Line `o` opens a code block of `n` marks `c`, and no line behind it closes the block.
  ghost predicate OpenSince(lines: seq<string>, c: char, n: nat, o: nat) {
    && o < |lines| && IsMark(c) && n >= 3 && FenceState(lines[..o]) == None && WrittenFence(lines[o], c, n)
    && forall j :: o < j < |lines| ==> !ClosesBlock(lines[j], c, n)
  }

  ghost predicate InBlock(lines: seq<string>, c: char, n: nat) {
    exists o: nat :: OpenSince(lines, c, n, o)
  }

  lemma OpenMore(lines: seq<string>, line: string, c: char, n: nat, o: nat)
    requires OpenSince(lines, c, n, o) && !ClosesBlock(line, c, n)
    ensures OpenSince(lines + [line], c, n, o)
  {
    assert (lines + [line])[..o] == lines[..o];
  }

  lemma OpenBefore(lines: seq<string>, line: string, c: char, n: nat, o: nat)
    requires OpenSince(lines + [line], c, n, o) && o < |lines|
    ensures OpenSince(lines, c, n, o) && !ClosesBlock(line, c, n)
  {
    var all := lines + [line];
    assert all[..o] == lines[..o];
    assert all[|lines|] == line;
    forall j | o < j < |lines| ensures !ClosesBlock(lines[j], c, n) {
      assert all[j] == lines[j];
    }
  }

  /** Behind some lines a code block is open exactly when one of them, outside any block, opened it, and none of the
      lines behind that one closes it. */
  lemma {:induction false} OpenIsSince(lines: seq<string>, c: char, n: nat)
    ensures FenceState(lines) == Some(Fence(c, n)) <==> InBlock(lines, c, n)
  {
    if lines != [] {
      var last := |lines| - 1;
      var before, line := lines[..last], lines[last];
      assert lines == before + [line];
      OpenIsSince(before, c, n);
      FenceIsWritten(line, c, n);
      if InBlock(lines, c, n) {
        var o: nat :| OpenSince(lines, c, n, o);
        CodeStaysOpen(c, n, line);
        if o < last {
          OpenBefore(before, line, c, n, o);
        }
      }
      if FenceState(lines) == Some(Fence(c, n)) {
        BlockIsSince(before, line, c, n);
      }
    }
  }

  lemma {:induction false} BlockIsSince(before: seq<string>, line: string, c: char, n: nat)
    requires FenceState(before + [line]) == Some(Fence(c, n))
    requires FenceState(before) == Some(Fence(c, n)) ==> InBlock(before, c, n)
    ensures InBlock(before + [line], c, n)
  {
    var lines := before + [line];
    assert lines[..|before|] == before;
    if FenceState(before) == None {
      FenceIsWritten(line, c, n);
      assert OpenSince(lines, c, n, |before|);
    } else {
      var o: nat :| OpenSince(before, c, n, o);
      CodeStaysOpen(c, n, line);
      OpenMore(before, line, c, n, o);
    }
  }

  // ----- headings

  // Single blanks between words, and none at the ends.
  predicate Squeezed(title: string) {
    && (forall i :: 0 <= i < |title| && IsSpace(title[i]) ==> title[i] == ' ' && 0 < i < |title| - 1)
    && (forall i :: 0 < i < |title| && IsSpace(title[i]) ==> !IsSpace(title[i - 1]))
  }

  // A title that a heading line carries over as it is.
  predicate CleanTitle(title: string) {
    title != "" && |title| <= 120 && Squeezed(title) && title[|title| - 1] != '#'
  }

  // No two white space characters in a row, and only blanks.
  predicate Sparse(s: string) {
    && (forall i :: 0 <= i < |s| && IsSpace(s[i]) ==> s[i] == ' ')
    && (forall i :: 0 < i < |s| && IsSpace(s[i]) ==> !IsSpace(s[i - 1]))
  }

  lemma {:induction false} SparseIsFixed(s: string)
    requires Sparse(s)
    ensures SqueezeSpaces(s) == s
  {
    if s != "" {
      assert forall i :: 0 <= i < |s| - 1 ==> s[1..][i] == s[i + 1];
      SparseIsFixed(s[1..]);
      assert s == [s[0]] + s[1..];
      if IsSpace(s[0]) && |s| > 1 {
        assert !IsSpace(s[1]);
      }
    }
  }

  lemma CleanIsFixed(title: string)
    requires CleanTitle(title)
    ensures NormalizeHeading(title) == title
  {
    SparseIsFixed(title);
    StripFixed(title);
  }

  // A heading line of `n` hashes.
  function HeadingLine(n: nat, title: string): string {
    Rep('#', n) + " " + title
  }

  lemma HeadingLineReads(n: nat, title: string)
    requires 1 <= n <= 6 && CleanTitle(title)
    ensures ParseHeading(HeadingLine(n, title)) == Some((n, title)) && DetectFence(HeadingLine(n, title)) == None
  {
    var line := HeadingLine(n, title);
    assert line[0] == '#' && line[|line| - 1] == title[|title| - 1];
    StripFixed(line);
    assert line == Rep('#', n) + (" " + title);
    RunOfRep('#', n, " " + title);
    assert line[n..] == " " + title;
    LeftOfBlank(" ", title);
    assert DropHashes(title) == title;
  }

  /** A heading line of up to six hashes reads back as its level and title, or, when the title names a page, as the
      marker of that page; inside a fence it is a line like any other. */
  lemma HeadingRoundTrip(n: nat, title: string, open: Option<Fence>)
    requires 1 <= n <= 6 && CleanTitle(title)
    ensures ItemOf(HeadingLine(n, title), open)
            == if open.Some? then Body(HeadingLine(n, title))
               else match ParsePageHeading(title)
                    case None => Heading(Head(n, title))
                    case Some(page) => Body(PageMarker(page))
  {
    HeadingLineReads(n, title);
    CleanIsFixed(title);
  }

  // The heading that names a page.
  function PageTitle(page: nat): string {
    "\U{7b2c} " + Decimal(page) + " \U{9875}"
  }

  lemma PageTitleParts(d: string, t: string, u: string)
    requires u == d + " \U{9875}" && t == "\U{7b2c} " + d + " \U{9875}"
    requires d != "" && forall i :: 0 <= i < |d| ==> IsDigit(d[i])
    ensures "\U{7b2c}" <= t && t[1..] == " " + u && u[..|d|] == d && u[|d|..] == " " + "\U{9875}"
    ensures Strip(t) == t && StripLeft(t[1..]) == u && StripLeft(u[|d|..]) == "\U{9875}"
  {
    StripFixed(t);
    LeftOfBlank(" ", u);
    LeftOfBlank(" ", "\U{9875}");
  }

  /** The title that names a page is read as naming that page, and is carried over when it is short enough. */
  lemma {:induction false} PageTitleRoundTrip(page: nat)
    ensures ParsePageHeading(PageTitle(page)) == Some(page)
    ensures |Decimal(page)| <= 116 ==> CleanTitle(PageTitle(page))
  {
    var d := Decimal(page);
    var u := d + " \U{9875}";
    PageTitleParts(d, PageTitle(page), u);
    DigitRunOf(d, " \U{9875}");
    DecimalRoundTrip(page);
    PageTitleClean(d, PageTitle(page));
  }

  lemma PageTitleClean(d: string, t: string)
    requires t == "\U{7b2c} " + d + " \U{9875}" && d != "" && forall i :: 0 <= i < |d| ==> IsDigit(d[i])
    ensures |d| <= 116 ==> CleanTitle(t)
  {
    forall i | 0 <= i < |t| ensures IsSpace(t[i]) <==> i == 1 || i == |d| + 2 {
      if 2 <= i < |d| + 2 {
        assert t[i] == d[i - 2];
      }
    }
  }

  predicate AllDigits(d: string) {
    d != "" && forall i :: 0 <= i < |d| ==> IsDigit(d[i])
  }

  predicate PageWrittenAs(t: string, page: nat, a: string, d: string, b: string) {
    && Blank(a) && Blank(b) && AllDigits(d) && DecimalValue(d) == page
    && t == "\U{7b2c}" + (a + (d + (b + "\U{9875}")))
  }

  lemma WrittenNamesPage(t: string, page: nat, a: string, d: string, b: string)
    requires PageWrittenAs(t, page, a, d, b)
    ensures ParsePageHeading(t) == Some(page)
  {
    var v := b + "\U{9875}";
    var u := d + v;
    StripFixed(t);
    assert t[..1] == "\U{7b2c}" && t[1..] == a + u;
    LeftOfBlank(a, u);
    assert v[0] == if b == "" then '\U{9875}' else b[0];
    DigitRunOf(d, v);
    assert u[..|d|] == d && u[|d|..] == v;
    LeftOfBlank(b, "\U{9875}");
  }

  lemma NamedPageIsWritten(t: string, page: nat) returns (a: string, d: string, b: string)
    requires Strip(t) == t && ParsePageHeading(t) == Some(page)
    ensures PageWrittenAs(t, page, a, d, b)
  {
    var u := StripLeft(t[1..]);
    var n := DigitRun(u);
    a := StripLeftCuts(t[1..]);
    b := StripLeftCuts(u[n..]);
    d := u[..n];
    assert u == d + (b + "\U{9875}");
    assert t == "\U{7b2c}" + t[1..];
  }

  ghost predicate NamesPage(t: string, page: nat) {
    exists a, d, b :: PageWrittenAs(t, page, a, d, b)
  }

  /** A title names a page exactly when it is written as the two signs around a number, with white space or not. */
  lemma PageHeadingIsWritten(title: string, page: nat)
    ensures ParsePageHeading(title) == Some(page) <==> NamesPage(Strip(title), page)
  {
    var t := Strip(title);
    StripTwice(title);
    if NamesPage(t, page) {
      var a, d, b :| PageWrittenAs(t, page, a, d, b);
      WrittenNamesPage(t, page, a, d, b);
    }
    if ParsePageHeading(t) == Some(page) {
      var a, d, b := NamedPageIsWritten(t, page);
    }
  }

  // The characters of a text that can be seen, in order.
  function Letters(s: string): string {
    if s == "" then "" else (if IsSpace(s[0]) then "" else [s[0]]) + Letters(s[1..])
  }

  lemma {:induction false} LettersSplit(a: string, b: string)
    ensures Letters(a + b) == Letters(a) + Letters(b)
  {
    if a == "" {
      assert a + b == b;
    } else {
      assert (a + b)[1..] == a[1..] + b;
      LettersSplit(a[1..], b);
    }
  }

  lemma {:induction false} BlankHasNone(s: string)
    requires Blank(s)
    ensures Letters(s) == ""
  {
    if s != "" {
      BlankHasNone(s[1..]);
    }
  }

  lemma {:induction false} SqueezeKeepsLetters(s: string)
    ensures Letters(SqueezeSpaces(s)) == Letters(s) && Sparse(SqueezeSpaces(s))
    ensures s != "" ==> SqueezeSpaces(s) != "" && (IsSpace(SqueezeSpaces(s)[0]) <==> IsSpace(s[0]))
  {
    if s != "" {
      SqueezeKeepsLetters(s[1..]);
      var rest := SqueezeSpaces(s[1..]);
      if !IsSpace(s[0]) {
        assert ([s[0]] + rest)[1..] == rest;
      } else if !(|s| > 1 && IsSpace(s[1])) {
        assert (" " + rest)[1..] == rest;
      }
    }
  }

  lemma {:induction false} StripKeepsLetters(s: string)
    ensures Letters(Strip(s)) == Letters(s) && (Sparse(s) ==> Sparse(Strip(s)))
  {
    var left, right := StripIsMiddle(s);
    BlankHasNone(left);
    BlankHasNone(right);
    LettersSplit(left + Strip(s), right);
    LettersSplit(left, Strip(s));
    MiddleIsSparse(left, Strip(s), right);
  }

  lemma MiddleIsSparse(left: string, middle: string, right: string)
    ensures Sparse(left + middle + right) ==> Sparse(middle)
  {
    var s := left + middle + right;
    assert forall i :: 0 <= i < |middle| ==> middle[i] == s[|left| + i];
  }

  lemma {:induction false} CutKeepsLetters(a: string, b: string)
    ensures Letters(a) <= Letters(a + b)
  {
    LettersSplit(a, b);
  }

  lemma CutIsSparse(a: string, b: string)
    requires Sparse(a + b)
    ensures Sparse(a)
  {
    assert forall i :: 0 <= i < |a| ==> (a + b)[i] == a[i];
  }

  /** A title loses nothing but white space, and what is behind its first 120 characters. */
  lemma {:induction false} TitleKeepsLetters(title: string)
    ensures |NormalizeHeading(title)| <= 120 && Sparse(NormalizeHeading(title))
    ensures Letters(NormalizeHeading(title)) <= Letters(title)
    ensures |NormalizeHeading(title)| < 120 ==> Letters(NormalizeHeading(title)) == Letters(title)
  {
    SqueezeKeepsLetters(title);
    StripKeepsLetters(SqueezeSpaces(title));
    var t := Strip(SqueezeSpaces(title));
    if |t| > 120 {
      assert t == t[..120] + t[120..];
      CutKeepsLetters(t[..120], t[120..]);
      CutIsSparse(t[..120], t[120..]);
    }
  }

  /** Conversely a heading is written as its level of hashes and white space before its title, outside any fence,
      and the title loses nothing that can be seen but closing hashes and what is behind 120 characters. */
  lemma HeadingIsWritten(line: string, open: Option<Fence>, head: Head) returns (raw: string)
    requires ItemOf(line, open) == Heading(head)
    ensures open == None && DetectFence(line) == None
    ensures 1 <= head.level <= 6 && head.level < |Strip(line)|
    ensures Strip(line)[..head.level] == Rep('#', head.level) && IsSpace(Strip(line)[head.level])
    ensures ParseHeading(line) == Some((head.level, raw)) && head.title == NormalizeHeading(raw)
    ensures raw == "#" || Letters(raw) <= Letters(Strip(line)[head.level..])
    ensures raw != "#" ==> OnlyHashes(Letters(Strip(line)[head.level..])[|Letters(raw)|..])
  {
    var t := Strip(line);
    var n := head.level;
    RunIsRep('#', t);
    raw := ParseHeading(line).value.1;
    RawTitle(t[n..]);
  }

  predicate OnlyHashes(s: string) {
    forall i :: 0 <= i < |s| ==> s[i] == '#'
  }

  lemma {:induction false} DroppedHashes(s: string) returns (hashes: string)
    ensures s == DropHashes(s) + hashes && OnlyHashes(hashes)
  {
    if s != "" && s[|s| - 1] == '#' {
      var more := DroppedHashes(s[..|s| - 1]);
      hashes := more + "#";
    } else {
      hashes := "";
    }
  }

  lemma {:induction false} HashLetters(s: string)
    requires OnlyHashes(s)
    ensures Letters(s) == s
  {
    if s != "" {
      HashLetters(s[1..]);
    }
  }

  lemma {:induction false} RawTitle(s: string)
    ensures var title := StripRight(DropHashes(StripLeft(s)));
            Letters(title) <= Letters(s) && OnlyHashes(Letters(s)[|Letters(title)|..])
  {
    var u := StripLeft(s);
    var left := StripLeftCuts(s);
    var hashes := DroppedHashes(u);
    var right := StripRightCuts(DropHashes(u));
    BlankHasNone(left);
    BlankHasNone(right);
    HashLetters(hashes);
    LettersSplit(left, u);
    LettersSplit(DropHashes(u), hashes);
    LettersSplit(StripRight(DropHashes(u)), right);
  }

  // ----- table rows and rules

  /** A line is a table row exactly when two bars can be seen in it. */
  lemma RowIsWritten(line: string)
    ensures IsTableRow(line) <==> exists i, j :: 0 <= i < j < |line| && line[i] == line[j] == '|'
  {
    BarsInside(line);
    BarsCounted(line);
  }

  lemma {:induction false} CountSplit(a: string, b: string)
    ensures CountBars(a + b) == CountBars(a) + CountBars(b)
  {
    if a == "" {
      assert a + b == b;
    } else {
      assert (a + b)[1..] == a[1..] + b;
      CountSplit(a[1..], b);
    }
  }

  lemma {:induction false} BlankHasNoBars(s: string)
    requires Blank(s)
    ensures CountBars(s) == 0
  {
    if s != "" {
      BlankHasNoBars(s[1..]);
    }
  }

  lemma {:induction false} BarsInside(line: string)
    ensures CountBars(Strip(line)) == CountBars(line)
  {
    var left, right := StripIsMiddle(line);
    BlankHasNoBars(left);
    BlankHasNoBars(right);
    CountSplit(left + Strip(line), right);
    CountSplit(left, Strip(line));
  }

  lemma {:induction false} OneBar(s: string)
    ensures CountBars(s) >= 1 <==> exists i :: 0 <= i < |s| && s[i] == '|'
  {
    if s != "" {
      OneBar(s[1..]);
      if i :| 0 <= i < |s| && s[i] == '|' && i > 0 {
        assert s[1..][i - 1] == '|';
      }
      if i :| 0 <= i < |s[1..]| && s[1..][i] == '|' {
        assert s[i + 1] == '|';
      }
    }
  }

  lemma {:induction false} BarsCounted(s: string)
    ensures CountBars(s) >= 2 <==> exists i, j :: 0 <= i < j < |s| && s[i] == s[j] == '|'
  {
    if s != "" {
      BarsCounted(s[1..]);
      OneBar(s[1..]);
      if i, j :| 0 <= i < j < |s| && s[i] == s[j] == '|' {
        assert s[1..][j - 1] == '|';
        assert i > 0 ==> s[1..][i - 1] == '|';
      }
      if i, j :| 0 <= i < j < |s[1..]| && s[1..][i] == s[1..][j] == '|' {
        assert s[i + 1] == s[j + 1] == '|';
      }
      if s[0] == '|' && CountBars(s[1..]) >= 1 {
        var j :| 0 <= j < |s[1..]| && s[1..][j] == '|';
        assert s[0] == s[j + 1] == '|';
      }
    }
  }

  // A rule of `n` dashes with a colon on either side or not.
  function RuleText(left: bool, n: nat, right: bool): string {
    (if left then ":" else "") + Rep('-', n) + (if right then ":" else "")
  }

  ghost predicate WrittenRule(cell: string) {
    exists left, n, right :: n >= 3 && cell == RuleText(left, n, right)
  }

  lemma WrittenIsRule(left: bool, n: nat, right: bool)
    requires n >= 3
    ensures IsRule(RuleText(left, n, right))
  {
    var cell := RuleText(left, n, right);
    var c := Rep('-', n) + (if right then ":" else "");
    RunOfRep('-', n, if right then ":" else "");
    assert cell == (if left then ":" else "") + c;
    assert c[0] == '-' && (if left then cell[1..] == c else cell == c);
    assert c[n..] == if right then ":" else "";
  }

  lemma {:induction false} RuleHasForm(cell: string, c: string, left: bool, n: nat)
    requires n >= 3 && n == RunOf('-', c) && cell == (if left then ":" else "") + c
    requires c[n..] == "" || c[n..] == ":"
    ensures WrittenRule(cell)
  {
    RunIsRep('-', c);
    RunSplits(c, '-', n);
    assert cell == RuleText(left, n, c[n..] == ":");
  }

  /** A cell is a rule exactly when it is written as three or more dashes with or without colons. */
  lemma RuleIsWritten(cell: string)
    ensures IsRule(cell) <==> WrittenRule(cell)
  {
    if left, n, right :| n >= 3 && cell == RuleText(left, n, right) {
      WrittenIsRule(left, n, right);
    }
    if IsRule(cell) {
      var left := cell != "" && cell[0] == ':';
      var c := if left then cell[1..] else cell;
      assert left ==> cell == ":" + c;
      assert !left ==> cell == "" + c;
      RuleHasForm(cell, c, left, RunOf('-', c));
    }
  }

  // Cells between bars.
  function Barred(cells: seq<string>): string {
    if cells == [] then "" else if |cells| == 1 then cells[0] else cells[0] + "|" + Barred(cells[1..])
  }

  predicate NoBars(s: string) {
    forall i :: 0 <= i < |s| ==> s[i] != '|'
  }

  lemma {:induction false} OneCell(cell: string)
    requires NoBars(cell)
    ensures SplitBars(cell) == [cell]
  {
    if cell != "" {
      OneCell(cell[1..]);
      assert [cell[0]] + cell[1..] == cell;
    }
  }

  lemma {:induction false} FirstCell(cell: string, rest: string)
    requires NoBars(cell)
    ensures SplitBars(cell + "|" + rest) == [cell] + SplitBars(rest)
  {
    var s := cell + "|" + rest;
    if cell == "" {
      assert s[1..] == rest;
    } else {
      assert s[1..] == cell[1..] + "|" + rest;
      FirstCell(cell[1..], rest);
      assert [cell[0]] + cell[1..] == cell;
    }
  }

  /** Cells between bars are read back. */
  lemma {:induction false} CellsRoundTrip(cells: seq<string>)
    requires cells != [] && forall i :: 0 <= i < |cells| ==> NoBars(cells[i])
    ensures SplitBars(Barred(cells)) == cells
  {
    if |cells| == 1 {
      OneCell(cells[0]);
    } else {
      CellsRoundTrip(cells[1..]);
      FirstCell(cells[0], Barred(cells[1..]));
      assert [cells[0]] + cells[1..] == cells;
    }
  }

  lemma {:induction false} BarredEnds(cells: seq<string>)
    requires cells != [] && forall i :: 0 <= i < |cells| ==> cells[i] != "" && NoBars(cells[i])
    ensures var s := Barred(cells); s != "" && s[0] != '|' && s[|s| - 1] != '|'
  {
    if |cells| > 1 {
      BarredEnds(cells[1..]);
    }
  }

  /** Two or more rules between bars, with bars at the ends, are the line below the head of a table. */
  lemma {:induction false} SeparatorIsWritten(cells: seq<string>)
    requires |cells| >= 2
    requires forall i :: 0 <= i < |cells| ==> NoBars(cells[i]) && cells[i] != "" && IsRule(Strip(cells[i]))
    ensures IsTableSeparator("|" + Barred(cells) + "|")
  {
    var s := Barred(cells);
    var line := "|" + s + "|";
    BarredEnds(cells);
    CellsRoundTrip(cells);
    StripFixed(line);
    BarsAround(s);
  }

  lemma {:induction false} BarsAround(s: string)
    requires s != "" && s[0] != '|' && s[|s| - 1] != '|'
    ensures StripBarsRight(StripBarsLeft("|" + s + "|")) == s
  {
    var line := "|" + s + "|";
    assert line[1..] == s + "|";
    assert StripBarsLeft(line) == s + "|";
    assert (s + "|")[..|s|] == s;
  }
}
