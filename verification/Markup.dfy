/** What single lines of a markdown document mean to the chunker. */
module Markup {
  import opened Text
  import opened Options
  import opened Lines

  // ----- decimal numbers

  predicate IsDigit(c: char) {
    '0' <= c <= '9'
  }

  function DigitRun(s: string): (n: nat)
    ensures n <= |s|
    ensures forall i :: 0 <= i < n ==> IsDigit(s[i])
    ensures n < |s| ==> !IsDigit(s[n])
  {
    if s != "" && IsDigit(s[0]) then 1 + DigitRun(s[1..]) else 0
  }

  function DigitValue(c: char): nat
    requires IsDigit(c)
  {
    c as int - '0' as int
  }

  function DecimalValue(digits: string): nat
    requires forall i :: 0 <= i < |digits| ==> IsDigit(digits[i])
  {
    if digits == "" then 0
    else 10 * DecimalValue(digits[..|digits| - 1]) + DigitValue(digits[|digits| - 1])
  }

  function Decimal(n: nat): (s: string)
    ensures s != "" && forall i :: 0 <= i < |s| ==> IsDigit(s[i])
  {
    (if n < 10 then "" else Decimal(n / 10)) + [('0' as int + n % 10) as char]
  }

  lemma {:induction false} DecimalRoundTrip(n: nat)
    ensures DecimalValue(Decimal(n)) == n
  {
    var s := Decimal(n);
    if n < 10 {
      assert s[..0] == "";
    } else {
      DecimalRoundTrip(n / 10);
      assert s[..|s| - 1] == Decimal(n / 10);
    }
  }

  lemma {:induction false} DigitRunOf(digits: string, rest: string)
    requires forall i :: 0 <= i < |digits| ==> IsDigit(digits[i])
    requires rest != "" ==> !IsDigit(rest[0])
    ensures DigitRun(digits + rest) == |digits|
  {
    if digits == "" {
      assert digits + rest == rest;
    } else {
      assert (digits + rest)[1..] == digits[1..] + rest;
      DigitRunOf(digits[1..], rest);
    }
  }

  // ----- fences

  datatype Fence = Fence(mark: char, length: nat)

  function RunOf(c: char, s: string): (n: nat)
    ensures n <= |s|
  {
    if s != "" && s[0] == c then 1 + RunOf(c, s[1..]) else 0
  }

  // Three or more backticks or tildes at the start of the line, indented or not.
  function DetectFence(line: string): Option<Fence> {
    var t := StripLeft(line);
    if t != "" && (t[0] == '`' || t[0] == '~') && RunOf(t[0], t) >= 3 then Some(Fence(t[0], RunOf(t[0], t)))
    else None
  }

  // An open fence is closed by a fence of the same character that is at least as long.
  predicate Closes(open: Fence, fence: Fence) {
    fence.mark == open.mark && fence.length >= open.length
  }

  function NextFence(open: Option<Fence>, line: string): Option<Fence> {
    match DetectFence(line)
    case None => open
    case Some(fence) =>
      if open.None? then Some(fence) else if Closes(open.value, fence) then None else open
  }

  // ----- headings

  // The level and the raw title of a heading line.
  function ParseHeading(line: string): Option<(nat, string)> {
    var t := Strip(line);
    var level := RunOf('#', t);
    if 1 <= level <= 6 && level < |t| && IsSpace(t[level]) then
      var title := StripRight(DropHashes(StripLeft(t[level..])));
      Some((level, if title == "" then "#" else title))
    else None
  }

  // The closing hashes of a heading line do not belong to its title.
  function DropHashes(s: string): string {
    if s != "" && s[|s| - 1] == '#' then DropHashes(s[..|s| - 1]) else s
  }

  function SqueezeSpaces(s: string): string {
    if s == "" then ""
    else if !IsSpace(s[0]) then [s[0]] + SqueezeSpaces(s[1..])
    else if |s| > 1 && IsSpace(s[1]) then SqueezeSpaces(s[1..])
    else " " + SqueezeSpaces(s[1..])
  }

  function NormalizeHeading(title: string): string {
    var t := Strip(SqueezeSpaces(title));
    if |t| > 120 then t[..120] else t
  }

  // A heading that only names a page, as in "第 12 页".
  function ParsePageHeading(heading: string): Option<nat> {
    var t := Strip(heading);
    if "\U{7b2c}" <= t then
      var u := StripLeft(t[1..]);
      var n := DigitRun(u);
      if n > 0 && StripLeft(u[n..]) == "\U{9875}" then Some(DecimalValue(u[..n])) else None
    else None
  }

  // ----- page markers

  function PageMarker(page: nat): string {
    "<!-- metaos:page=" + Decimal(page) + " -->"
  }

  function ParsePageMarker(line: string): Option<nat> {
    var t := Strip(line);
    if "<!--" <= t then
      var u := StripLeft(t[4..]);
      if "metaos:page=" <= u then
        var v := u[12..];
        var n := DigitRun(v);
        if n > 0 && StripLeft(v[n..]) == "-->" then Some(DecimalValue(v[..n])) else None
      else None
    else None
  }

  lemma MarkerTail(d: string)
    requires d != "" && forall i :: 0 <= i < |d| ==> IsDigit(d[i])
    ensures var v := d + " -->"; DigitRun(v) == |d| && StripLeft(v[|d|..]) == "-->" && v[..|d|] == d
  {
    var v := d + " -->";
    DigitRunOf(d, " -->");
    assert v[|d|..] == [' '] + "-->";
    assert v[..|d|] == d;
  }

  lemma MarkerHead(d: string)
    ensures var m := "<!-- metaos:page=" + d + " -->"; var u := "metaos:page=" + d + " -->";
            && "<!--" <= m && StripLeft(m[4..]) == u && "metaos:page=" <= u && u[12..] == d + " -->"
            && Strip(m) == m && StripLeft(m) == m
  {
    var m, u := "<!-- metaos:page=" + d + " -->", "metaos:page=" + d + " -->";
    assert m[..4] == "<!--";
    assert m[4..] == [' '] + u;
    assert u[..12] == "metaos:page=";
    assert u[12..] == d + " -->";
    assert m[0] == '<' && m[|m| - 1] == '>';
    StripFixed(m);
  }

  /** A printed page marker is a line that reads back as its page number, and nothing else. */
  lemma PageMarkerRoundTrip(page: nat)
    ensures ParsePageMarker(PageMarker(page)) == Some(page)
    ensures DetectFence(PageMarker(page)) == None
    ensures ParseHeading(PageMarker(page)) == None
    ensures IsLine(PageMarker(page)) && Strip(PageMarker(page)) == PageMarker(page)
  {
    var d := Decimal(page);
    MarkerHead(d);
    MarkerTail(d);
    DecimalRoundTrip(page);
    MarkerIsLine(d);
    assert RunOf('#', PageMarker(page)) == 0;
  }

  lemma MarkerIsLine(d: string)
    requires forall i :: 0 <= i < |d| ==> IsDigit(d[i])
    ensures IsLine("<!-- metaos:page=" + d + " -->")
  {
    var a, b := "<!-- metaos:page=", " -->";
    assert IsLine(a) && IsLine(b) && IsLine(d);
    forall i | 0 <= i < |a + d + b| ensures !IsBreak((a + d + b)[i]) {
      if i < |a| {
        assert (a + d + b)[i] == a[i];
      } else if i < |a| + |d| {
        assert (a + d + b)[i] == d[i - |a|];
      } else {
        assert (a + d + b)[i] == b[i - |a| - |d|];
      }
    }
  }

  // ----- tables

  function CountBars(s: string): nat {
    if s == "" then 0 else (if s[0] == '|' then 1 else 0) + CountBars(s[1..])
  }

  predicate IsTableRow(line: string) {
    CountBars(Strip(line)) >= 2
  }

  function StripBarsLeft(s: string): string {
    if s != "" && s[0] == '|' then StripBarsLeft(s[1..]) else s
  }

  function StripBarsRight(s: string): string {
    if s != "" && s[|s| - 1] == '|' then StripBarsRight(s[..|s| - 1]) else s
  }

  function SplitBars(s: string): (cells: seq<string>)
    ensures cells != []
  {
    if s == "" then [""]
    else
      var rest := SplitBars(s[1..]);
      if s[0] == '|' then [""] + rest else [[s[0]] + rest[0]] + rest[1..]
  }

  // Three or more dashes with an optional colon on either side.
  predicate IsRule(cell: string) {
    var c := if cell != "" && cell[0] == ':' then cell[1..] else cell;
    var n := RunOf('-', c);
    n >= 3 && (c[n..] == "" || c[n..] == ":")
  }

  predicate IsTableSeparator(line: string) {
    var cells := SplitBars(StripBarsRight(StripBarsLeft(Strip(line))));
    |cells| >= 2 && forall i :: 0 <= i < |cells| ==> IsRule(Strip(cells[i]))
  }
}
