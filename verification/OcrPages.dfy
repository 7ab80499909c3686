/**
  Printing recognised pages as markdown, and reading them back: the chunker's section and block
  readers recover every page's visible lines under that page's number.
 */
module OcrPages {
  import opened Text
  import opened Documents
  import opened Options
  import opened Lines
  import opened Markup
  import opened Sections
  import opened MarkdownBlocks

  // ----- the printer

  // Stands for a page without text.
  const PLACEHOLDER: string := "\U{ff08}\U{672c}\U{9875}\U{672a}\U{63d0}\U{53d6}\U{5230}\U{6587}\U{672c}\U{ff09}"

  // The extracted text of a page, or else the recognised text, or else nothing.
  function RawText(page: nat, extracted: map<nat, string>, recognised: map<nat, string>): string {
    if page in extracted && extracted[page] != "" then extracted[page]
    else if page in recognised && recognised[page] != "" then recognised[page]
    else ""
  }

  function PageText(page: nat, extracted: map<nat, string>, recognised: map<nat, string>): string {
    var text := Strip(RawText(page, extracted, recognised));
    if text == "" then PLACEHOLDER else text
  }

  // The printed parts of the pages `first` to `last`.
  function PageParts(first: nat, last: nat, extracted: map<nat, string>, recognised: map<nat, string>): seq<string>
    decreases last + 1 - first
  {
    if first > last then []
    else [PageMarker(first), "", PageText(first, extracted, recognised), ""]
         + PageParts(first + 1, last, extracted, recognised)
  }

  function Printed(title: string, pageCount: nat, extracted: map<nat, string>, recognised: map<nat, string>): string {
    Strip(Join("\n", ["# " + title, ""] + PageParts(1, pageCount, extracted, recognised))) + "\n"
  }

  method MergePdfPageMarkdown(title: string, pageCount: nat, extracted: map<nat, string>, recognised: map<nat, string>)
    returns (markdown: string)
    ensures markdown == Printed(title, pageCount, extracted, recognised)
  {
    var parts := ["# " + title, ""];
    for page := 1 to pageCount + 1
      invariant parts + PageParts(page, pageCount, extracted, recognised)
                == ["# " + title, ""] + PageParts(1, pageCount, extracted, recognised)
    {
      var text := Strip(RawText(page, extracted, recognised));
      ConcatAssociative(parts, [PageMarker(page), "", PageText(page, extracted, recognised), ""],
                        PageParts(page + 1, pageCount, extracted, recognised));
      parts := parts + [PageMarker(page), "", if text == "" then PLACEHOLDER else text, ""];
    }
    assert parts == ["# " + title, ""] + PageParts(1, pageCount, extracted, recognised);
    return Strip(Join("\n", parts)) + "\n";
  }

  // ----- a line means what its visible part means

  lemma {:induction false} RunOfTail(c: char, a: string, right: string)
    requires Blank(right) && !IsSpace(c)
    ensures RunOf(c, a + right) == RunOf(c, a)
  {
    if a == "" {
      assert a + right == right;
    } else {
      assert (a + right)[1..] == a[1..] + right;
      RunOfTail(c, a[1..], right);
    }
  }

  lemma LineBySight(line: string)
    ensures DetectFence(line) == DetectFence(Strip(line))
    ensures ParseHeading(line) == ParseHeading(Strip(line))
    ensures ParsePageMarker(line) == ParsePageMarker(Strip(line))
    ensures IsTableRow(line) == IsTableRow(Strip(line))
    ensures IsTableSeparator(line) == IsTableSeparator(Strip(line))
  {
    StripTwice(line);
    var right := StripRightCuts(StripLeft(line));
    RunOfTail('`', Strip(line), right);
    RunOfTail('~', Strip(line), right);
    if Strip(line) == "" && StripLeft(line) != "" {
      var left := StripLeftCuts(line);
    }
  }

  // A visible line that is neither heading, fence nor page marker.
  predicate Plain(v: string) {
    DetectFence(v).None? && ParseHeading(v).None? && ParsePageMarker(v).None?
  }

  // A visible line of the printed document behind its title.
  ghost predicate PlainOrMarker(v: string) {
    Plain(v) || (ParsePageMarker(v).Some? && v == PageMarker(ParsePageMarker(v).value))
  }

  lemma MarkerHasNoBars(page: nat)
    ensures CountBars(PageMarker(page)) == 0
  {
    var a, d, b := "<!-- metaos:page=", Decimal(page), " -->";
    assert '|' !in a && '|' !in b && '|' !in d;
    NoBars(a);
    NoBars(d);
    NoBars(b);
    BarsSplit(a, d);
    BarsSplit(a + d, b);
  }

  lemma NoRule(cell: string)
    requires cell != "" && cell[0] == '<'
    ensures !IsRule(Strip(cell))
  {
    VisibleStart(cell);
    assert RunOf('-', Strip(cell)) == 0;
  }

  lemma MarkerIsNoTable(page: nat)
    ensures !IsTableRow(PageMarker(page)) && !IsTableSeparator(PageMarker(page))
  {
    var m := PageMarker(page);
    PageMarkerRoundTrip(page);
    MarkerHasNoBars(page);
    var n := |m| - 1;
    assert m[0] == '<' && m[n] == '>';
    NoBarsKept(m);
    var cells := SplitBars(m);
    assert cells[0] != "" && cells[0][0] == '<';
    NoRule(cells[0]);
  }

  lemma {:induction false} NoBars(s: string)
    requires '|' !in s
    ensures CountBars(s) == 0
  {
    if s != "" {
      NoBars(s[1..]);
    }
  }

  lemma {:induction false} BarsSplit(a: string, b: string)
    ensures CountBars(a + b) == CountBars(a) + CountBars(b)
  {
    if a == "" {
      assert a + b == b;
    } else {
      assert (a + b)[1..] == a[1..] + b;
      BarsSplit(a[1..], b);
    }
  }

  lemma {:induction false} NoBarsKept(m: string)
    requires m != "" && m[0] != '|' && m[|m| - 1] != '|'
    ensures StripBarsRight(StripBarsLeft(m)) == m
  {
  }

  // A text that starts with a visible character still does after stripping.
  lemma {:induction false} VisibleStart(s: string)
    requires s != "" && !IsSpace(s[0])
    ensures StripLeft(s) == s && StripRight(s) != "" && StripRight(s)[0] == s[0] && Strip(s) == StripRight(s)
  {
    assert s == [s[0]] + s[1..];
    StripRightCons(s[0], s[1..]);
  }

  // ----- the title line

  predicate GoodTitle(title: string) {
    && IsLine(title)
    && Strip(title) != ""
    && match ParseHeading("# " + title)
       case Some(heading) => ParsePageHeading(NormalizeHeading(heading.1)).None?
       case None => true
  }

  lemma {:induction false} StripRightTail(a: string, b: string)
    requires StripRight(b) != ""
    ensures StripRight(a + b) == a + StripRight(b)
  {
    if a == "" {
      assert a + b == b;
    } else {
      assert a + b == [a[0]] + (a[1..] + b);
      StripRightTail(a[1..], b);
      StripRightCons(a[0], a[1..] + b);
    }
  }

  lemma {:induction false} StripRightVisible(s: string)
    requires Strip(s) != ""
    ensures StripRight(s) != ""
  {
    StripCommutes(s);
  }

  // The title of a heading line is never blank.
  lemma HeadingIsVisible(line: string)
    requires ParseHeading(line).Some?
    ensures NormalizeHeading(ParseHeading(line).value.1) != ""
  {
    var t := Strip(line);
    var level := RunOf('#', t);
    var u := StripLeft(t[level..]);
    var left := StripLeftCuts(t[level..]);
    var raw := ParseHeading(line).value.1;
    DropsBehind(u);
    var right := StripRightCuts(DropHashes(u));
    assert !IsSpace(raw[0]);
    VisibleStart(SqueezeSpaces(raw));
  }

  lemma {:induction false} DropsBehind(s: string)
    ensures DropHashes(s) != "" ==> DropHashes(s)[0] == s[0]
  {
    if s != "" && s[|s| - 1] == '#' {
      DropsBehind(s[..|s| - 1]);
    }
  }

  lemma TitleIsHeading(title: string) returns (head: Head)
    requires GoodTitle(title)
    ensures ItemOf("# " + title, None) == Heading(head) && head.level == 1
    ensures DetectFence("# " + title) == None
    ensures IsLine("# " + title)
  {
    var line := "# " + title;
    StripRightVisible(title);
    StripRightTail("# ", title);
    var t := "# " + StripRight(title);
    assert StripLeft(line) == line;
    assert Strip(line) == t;
    assert t[0] == '#' && t[1] == ' ' && t[1..][0] == ' ';
    assert RunOf('#', t[1..]) == 0;
    assert RunOf('#', t) == 1;
    HeadingIsVisible(line);
    head := Head(1, NormalizeHeading(ParseHeading(line).value.1));
  }

  // ----- reading the printed document: sections

  ghost predicate PlainLines(lines: seq<string>) {
    forall i :: 0 <= i < |lines| ==> DetectFence(lines[i]).None? && ParseHeading(lines[i]).None?
  }

  function Bodies(lines: seq<string>): seq<Item> {
    seq(|lines|, i requires 0 <= i < |lines| => Body(lines[i]))
  }

  lemma {:induction false} PlainItems(first: string, head: Head, rest: seq<string>)
    requires ItemOf(first, None) == Heading(head) && DetectFence(first) == None && PlainLines(rest)
    ensures FenceState([first] + rest) == None
    ensures Items([first] + rest) == [Heading(head)] + Bodies(rest)
  {
    if rest == [] {
      ItemsSnoc([], first);
      assert [first] + rest == [] + [first];
      assert Bodies(rest) == [];
    } else {
      var n := |rest| - 1;
      var before, line := rest[..n], rest[n];
      BodiesSnoc(first, before, line);
      assert rest == before + [line];
      PlainItems(first, head, before);
      ItemsSnoc([first] + before, line);
      PlainIsBody(line);
      ConcatAssociative([Heading(head)], Bodies(before), [Body(line)]);
    }
  }

  lemma PlainIsBody(line: string)
    requires DetectFence(line).None? && ParseHeading(line).None?
    ensures ItemOf(line, None) == Body(line) && NextFence(None, line) == None
  {
  }

  lemma BodiesSnoc(first: string, before: seq<string>, line: string)
    ensures [first] + (before + [line]) == [first] + before + [line]
    ensures Bodies(before + [line]) == Bodies(before) + [Body(line)]
  {
  }

  lemma {:induction false} ItemsSnoc(lines: seq<string>, line: string)
    ensures Items(lines + [line]) == Items(lines) + [ItemOf(line, FenceState(lines))]
    ensures FenceState(lines + [line]) == NextFence(FenceState(lines), line)
  {
    assert (lines + [line])[..|lines|] == lines;
  }

  lemma {:induction false} PartsOfBodies(head: Head, rest: seq<string>)
    ensures Parts([Heading(head)] + Bodies(rest)) == [Part([], []), Part([head], rest)]
  {
    var items := [Heading(head)] + Bodies(rest);
    if rest == [] {
      assert items == [Heading(head)];
      assert items[..0] == [];
      assert Parts([]) == [Part([], [])];
      assert [] + [head] == [head];
    } else {
      var n := |rest| - 1;
      PartsOfBodies(head, rest[..n]);
      assert items[..|items| - 1] == [Heading(head)] + Bodies(rest[..n]);
      assert rest[..n] + [rest[n]] == rest;
    }
  }

  lemma {:induction false} OneSection(first: string, head: Head, rest: seq<string>)
    requires ItemOf(first, None) == Heading(head) && DetectFence(first) == None && PlainLines(rest)
    ensures Parts(Items([first] + rest)) == [Part([], []), Part([head], rest)]
  {
    PlainItems(first, head, rest);
    PartsOfBodies(head, rest);
  }

  // ----- reading the printed document: blocks

  // Visible lines in order: a page marker sets the page of the lines after it.
  function TagVisible(lines: seq<string>, page: Option<nat>): seq<Tagged> {
    if lines == [] then []
    else if ParsePageMarker(lines[0]).Some? then TagVisible(lines[1..], ParsePageMarker(lines[0]))
    else [Tagged(page, lines[0])] + TagVisible(lines[1..], page)
  }

  ghost predicate Simple(lines: seq<string>) {
    forall i :: 0 <= i < |lines| ==>
      && DetectFence(lines[i]).None?
      && (ParsePageMarker(lines[i]).Some? ==> !IsTableRow(lines[i]) && !IsTableSeparator(lines[i]))
  }

  lemma {:induction false} TagVisibleLine(lines: seq<string>, i: nat, page: Option<nat>)
    requires i < |lines| && ParsePageMarker(lines[i]).None?
    ensures TagVisible(Visible(lines[i..]), page)
            == VisibleTag(page, lines[i]) + TagVisible(Visible(lines[i + 1..]), page)
  {
    LineBySight(lines[i]);
    assert lines[i..][1..] == lines[i + 1..];
    if Strip(lines[i]) != "" {
      assert ([Strip(lines[i])] + Visible(lines[i + 1..]))[1..] == Visible(lines[i + 1..]);
    } else {
      assert Visible(lines[i..]) == Visible(lines[i + 1..]);
    }
  }

  lemma {:induction false} TagVisibleMarker(lines: seq<string>, i: nat, page: Option<nat>)
    requires i < |lines| && ParsePageMarker(lines[i]).Some?
    ensures TagVisible(Visible(lines[i..]), page) == TagVisible(Visible(lines[i + 1..]), ParsePageMarker(lines[i]))
  {
    LineBySight(lines[i]);
    assert lines[i..][1..] == lines[i + 1..];
    assert Strip(lines[i]) != "";
    assert ([Strip(lines[i])] + Visible(lines[i + 1..]))[1..] == Visible(lines[i + 1..]);
  }

  // Without fences, tagging goes by page markers alone.
  lemma {:induction false} TagsByMarker(lines: seq<string>, i: nat, mode: Mode, page: Option<nat>)
    requires i <= |lines| && Simple(lines)
    requires mode.Outside? || mode.InRows? || (mode.AtRule? && i < |lines| && IsTableSeparator(lines[i]))
    ensures TagLines(lines, i, mode, page) == TagVisible(Visible(lines[i..]), page)
    decreases |lines| - i, if mode == InRows then 1 else 0
  {
    if i == |lines| {
      assert lines[i..] == [];
    } else if mode.InRows? && !IsTableRow(lines[i]) {
      TagsByMarker(lines, i, Outside, page);
    } else if mode.Outside? && ParsePageMarker(lines[i]).Some? {
      TagsByMarker(lines, i + 1, Outside, ParsePageMarker(lines[i]));
      TagVisibleMarker(lines, i, page);
    } else {
      var next := if mode.Outside? then (if StartsTable(lines, i) then AtRule else Outside) else InRows;
      TagsByMarker(lines, i + 1, next, page);
      TagVisibleLine(lines, i, page);
    }
  }

  // ----- the visible lines of the printed document

  function AllContent(parts: seq<string>): seq<string> {
    if parts == [] then [] else Content(parts[0]) + AllContent(parts[1..])
  }

  lemma {:induction false} JoinAllContent(parts: seq<string>)
    ensures Content(Join("\n", parts)) == AllContent(parts)
  {
    if parts == [] {
      assert Content("") == [];
    } else if |parts| == 1 {
      assert AllContent(parts[1..]) == [];
    } else {
      JoinAllContent(parts[1..]);
      assert Join("\n", parts) == parts[0] + ['\n'] + Join("\n", parts[1..]);
      ContentAtBreak(parts[0], '\n', Join("\n", parts[1..]));
    }
  }

  function PagesContent(first: nat, last: nat, extracted: map<nat, string>, recognised: map<nat, string>): seq<string>
    decreases last + 1 - first
  {
    if first > last then []
    else [PageMarker(first)] + Content(PageText(first, extracted, recognised))
         + PagesContent(first + 1, last, extracted, recognised)
  }

  lemma OneLineContent(line: string)
    requires IsLine(line) && Strip(line) == line && line != ""
    ensures Content(line) == [line]
  {
    SegmentsOfLine(line);
    assert Visible([line][1..]) == [];
  }

  lemma {:induction false} AllContentSplit(a: seq<string>, b: seq<string>)
    ensures AllContent(a + b) == AllContent(a) + AllContent(b)
  {
    if a == [] {
      assert a + b == b;
    } else {
      assert (a + b)[1..] == a[1..] + b;
      AllContentSplit(a[1..], b);
    }
  }

  lemma TwoParts(a: string)
    ensures AllContent([a, ""]) == Content(a)
  {
    assert Content("") == [];
    assert [a, ""][1..] == [""] && [""][1..] == [];
    assert AllContent([]) == [];
    assert AllContent([""]) == [];
  }

  lemma {:induction false} FourParts(a: string, b: string, rest: seq<string>)
    ensures AllContent([a, "", b, ""] + rest) == Content(a) + Content(b) + AllContent(rest)
  {
    TwoParts(a);
    TwoParts(b);
    AllContentSplit([a, ""], [b, ""]);
    assert [a, ""] + [b, ""] == [a, "", b, ""];
    AllContentSplit([a, "", b, ""], rest);
  }

  lemma {:induction false} PagePartsContent(
    first: nat, last: nat, extracted: map<nat, string>, recognised: map<nat, string>)
    ensures AllContent(PageParts(first, last, extracted, recognised))
            == PagesContent(first, last, extracted, recognised)
    decreases last + 1 - first
  {
    if first <= last {
      PageMarkerRoundTrip(first);
      OneLineContent(PageMarker(first));
      PagePartsContent(first + 1, last, extracted, recognised);
      FourParts(PageMarker(first), PageText(first, extracted, recognised),
                PageParts(first + 1, last, extracted, recognised));
    }
  }

  // No visible line of the page is a heading, a fence or a page marker.
  ghost predicate PlainPage(text: string) {
    PlainAll(Content(text))
  }

  ghost predicate PlainAll(lines: seq<string>) {
    forall v <- lines :: Plain(v)
  }

  // Only plain lines and page markers.
  ghost predicate ShownAll(lines: seq<string>) {
    forall v <- lines :: PlainOrMarker(v)
  }

  lemma PageTextPlain(page: nat, extracted: map<nat, string>, recognised: map<nat, string>)
    requires PlainPage(RawText(page, extracted, recognised))
    ensures PlainPage(PageText(page, extracted, recognised))
  {
    StripKeepsContent(RawText(page, extracted, recognised));
    PlaceholderPlain();
  }

  lemma PlaceholderPlain()
    ensures Content(PLACEHOLDER) == [PLACEHOLDER] && Plain(PLACEHOLDER)
  {
    assert IsLine(PLACEHOLDER);
    assert |PLACEHOLDER| == 10 && PLACEHOLDER[0] == '\U{ff08}' && PLACEHOLDER[9] == '\U{ff09}';
    StripFixed(PLACEHOLDER);
    OneLineContent(PLACEHOLDER);
    assert StripLeft(PLACEHOLDER) == PLACEHOLDER;
    assert RunOf('#', PLACEHOLDER) == 0;
  }

  ghost predicate PlainPages(first: nat, last: nat, extracted: map<nat, string>, recognised: map<nat, string>) {
    forall p: nat :: first <= p <= last ==> PlainPage(RawText(p, extracted, recognised))
  }

  lemma {:induction false} PagesArePlain(
    first: nat, last: nat, extracted: map<nat, string>, recognised: map<nat, string>)
    requires PlainPages(first, last, extracted, recognised)
    ensures ShownAll(PagesContent(first, last, extracted, recognised))
    decreases last + 1 - first
  {
    if first > last {
      NoPages(first, last, extracted, recognised);
      return;
    }
    PagesArePlain(first + 1, last, extracted, recognised);
    PagePlainStep(first, last, extracted, recognised);
  }

  lemma {:induction false} NoPages(first: nat, last: nat, extracted: map<nat, string>, recognised: map<nat, string>)
    requires first > last
    ensures ShownAll(PagesContent(first, last, extracted, recognised))
  {
  }

  lemma PagePlainStep(first: nat, last: nat, extracted: map<nat, string>, recognised: map<nat, string>)
    requires first <= last && PlainPage(RawText(first, extracted, recognised))
    requires ShownAll(PagesContent(first + 1, last, extracted, recognised))
    ensures ShownAll(PagesContent(first, last, extracted, recognised))
  {
    PageTextPlain(first, extracted, recognised);
    PlainStep(first, Content(PageText(first, extracted, recognised)),
              PagesContent(first + 1, last, extracted, recognised));
  }

  lemma PlainStep(page: nat, text: seq<string>, rest: seq<string>)
    requires PlainAll(text) && ShownAll(rest)
    ensures ShownAll([PageMarker(page)] + text + rest)
  {
    PageMarkerRoundTrip(page);
  }

  lemma {:induction false} InSight(lines: seq<string>, i: nat)
    requires i < |lines|
    ensures Strip(lines[i]) == "" || Strip(lines[i]) in Visible(lines)
  {
    if i > 0 {
      InSight(lines[1..], i - 1);
    }
  }

  // Lines whose visible parts are plain or page markers are read without headings, fences or tables of markers.
  lemma {:induction false} SimpleBySight(lines: seq<string>)
    requires ShownAll(Visible(lines))
    ensures Simple(lines) && PlainLines(lines)
  {
    forall i | 0 <= i < |lines|
      ensures DetectFence(lines[i]).None? && ParseHeading(lines[i]).None?
      ensures ParsePageMarker(lines[i]).Some? ==> !IsTableRow(lines[i]) && !IsTableSeparator(lines[i])
    {
      InSight(lines, i);
      LineBySight(lines[i]);
      SightIsSimple(Strip(lines[i]));
    }
  }

  lemma SightIsSimple(v: string)
    requires v == "" || PlainOrMarker(v)
    ensures DetectFence(v).None? && ParseHeading(v).None?
    ensures ParsePageMarker(v).Some? ==> !IsTableRow(v) && !IsTableSeparator(v)
  {
    if v != "" && !Plain(v) {
      PageMarkerRoundTrip(ParsePageMarker(v).value);
      MarkerIsNoTable(ParsePageMarker(v).value);
    }
  }

  // ----- the tags of the pages

  // Page by page, the visible lines of the page under its number.
  function PageTags(first: nat, last: nat, extracted: map<nat, string>, recognised: map<nat, string>): seq<Tagged>
    decreases last + 1 - first
  {
    if first > last then []
    else
      Tag(Some(first), Content(PageText(first, extracted, recognised)))
      + PageTags(first + 1, last, extracted, recognised)
  }

  lemma {:induction false} TagPlain(lines: seq<string>, rest: seq<string>, page: Option<nat>)
    requires PlainAll(lines)
    ensures TagVisible(lines + rest, page) == Tag(page, lines) + TagVisible(rest, page)
  {
    if lines == [] {
      assert lines + rest == rest;
    } else {
      TagPlain(lines[1..], rest, page);
      TagPlainStep(lines, rest, page);
    }
  }

  lemma {:induction false} TagPlainStep(lines: seq<string>, rest: seq<string>, page: Option<nat>)
    requires lines != [] && Plain(lines[0])
    ensures TagVisible(lines + rest, page) == [Tagged(page, lines[0])] + TagVisible(lines[1..] + rest, page)
    ensures Tag(page, lines) == [Tagged(page, lines[0])] + Tag(page, lines[1..])
  {
    assert (lines + rest)[1..] == lines[1..] + rest;
  }

  lemma {:induction false} TagMarkerStep(page: nat, text: seq<string>, rest: seq<string>, before: Option<nat>)
    ensures TagVisible([PageMarker(page)] + text + rest, before) == TagVisible(text + rest, Some(page))
  {
    PageMarkerRoundTrip(page);
    assert ([PageMarker(page)] + text + rest)[1..] == text + rest;
  }

  lemma {:induction false} TagPages(first: nat, last: nat, extracted: map<nat, string>, recognised: map<nat, string>,
                                    page: Option<nat>)
    requires PlainPages(first, last, extracted, recognised)
    ensures TagVisible(PagesContent(first, last, extracted, recognised), page)
            == PageTags(first, last, extracted, recognised)
    decreases last + 1 - first
  {
    if first <= last {
      var text := Content(PageText(first, extracted, recognised));
      var rest := PagesContent(first + 1, last, extracted, recognised);
      PageTextPlain(first, extracted, recognised);
      TagMarkerStep(first, text, rest, page);
      TagPlain(text, rest, Some(first));
      TagPages(first + 1, last, extracted, recognised, Some(first));
    }
  }

  // ----- the round trip

  lemma {:induction false} FirstLine(a: string, b: string)
    requires IsLine(a)
    ensures SplitLines(a + "\n" + b) == [a] + SplitLines(b)
  {
    var s := a + "\n" + b;
    LineEndAt(a, "\n" + b);
    assert s == a + ("\n" + b);
    assert s[|a|] == '\n' && s[..|a|] == a && s[|a| + 1..] == b;
  }

  lemma {:induction false} LineEndAt(a: string, b: string)
    requires IsLine(a) && b != "" && IsBreak(b[0])
    ensures LineEnd(a + b) == |a|
  {
    if a == "" {
      assert a + b == b;
    } else {
      assert (a + b)[1..] == a[1..] + b;
      assert IsLine(a[1..]);
      LineEndAt(a[1..], b);
    }
  }

  // The printed document is its title line and lines that show exactly the pages.
  lemma PrintedLines(title: string, pageCount: nat, extracted: map<nat, string>, recognised: map<nat, string>)
    returns (rest: seq<string>)
    requires pageCount >= 1 && GoodTitle(title)
    ensures SplitLines(Printed(title, pageCount, extracted, recognised)) == ["# " + title] + rest
    ensures AreLines(rest) && Visible(rest) == PagesContent(1, pageCount, extracted, recognised)
  {
    var first, body := "# " + title, PrintedBody(pageCount, extracted, recognised);
    var head := TitleIsHeading(title);
    BodyShowsPages(pageCount, extracted, recognised);
    PrintedIsTitleAndBody(title, pageCount, extracted, recognised);
    var cut := StripRight(body) + "\n";
    FirstLine(first, cut);
    rest := SplitLines(cut);
    LinesAreContent(cut);
    StripRightKeepsContent(body);
    ContentAtBreak(StripRight(body), '\n', "");
    assert StripRight(body) + ['\n'] + "" == cut;
    assert Content("") == [];
  }

  // What is printed below the title, before the final strip.
  function PrintedBody(pageCount: nat, extracted: map<nat, string>, recognised: map<nat, string>): string {
    Join("\n", [""] + PageParts(1, pageCount, extracted, recognised))
  }

  lemma {:induction false} BodyShowsPages(pageCount: nat, extracted: map<nat, string>, recognised: map<nat, string>)
    ensures Content(PrintedBody(pageCount, extracted, recognised)) == PagesContent(1, pageCount, extracted, recognised)
  {
    var pages := PageParts(1, pageCount, extracted, recognised);
    JoinAllContent([""] + pages);
    AllContentSplit([""], pages);
    assert [""][1..] == [] && Content("") == [];
    assert AllContent([]) == [];
    PagePartsContent(1, pageCount, extracted, recognised);
  }

  lemma BodyNotBlank(pageCount: nat, extracted: map<nat, string>, recognised: map<nat, string>)
    requires pageCount >= 1
    ensures StripRight(PrintedBody(pageCount, extracted, recognised)) != ""
  {
    BodyShowsPages(pageCount, extracted, recognised);
    StripRightKeepsContent(PrintedBody(pageCount, extracted, recognised));
    assert Content("") == [];
  }

  lemma PrintedIsTitleAndBody(title: string, pageCount: nat, extracted: map<nat, string>, recognised: map<nat, string>)
    requires pageCount >= 1
    ensures Printed(title, pageCount, extracted, recognised)
            == "# " + title + "\n" + (StripRight(PrintedBody(pageCount, extracted, recognised)) + "\n")
  {
    var first, body := "# " + title, PrintedBody(pageCount, extracted, recognised);
    var pages := PageParts(1, pageCount, extracted, recognised);
    assert [first, ""] + pages == [first] + ([""] + pages);
    JoinCons(first, [""] + pages);
    BodyNotBlank(pageCount, extracted, recognised);
    StripRightTail(first + "\n", body);
    StripHash(first + "\n" + body);
  }

  lemma {:induction false} JoinCons(first: string, rest: seq<string>)
    requires rest != []
    ensures Join("\n", [first] + rest) == first + "\n" + Join("\n", rest)
  {
    assert ([first] + rest)[1..] == rest;
  }

  lemma {:induction false} StripHash(s: string)
    requires s != "" && s[0] == '#'
    ensures Strip(s) == StripRight(s)
  {
  }

  /** A page shows its extracted text, or its recognised text when none at all was extracted, or the placeholder. */
  lemma PageShows(page: nat, extracted: map<nat, string>, recognised: map<nat, string>)
    ensures page in extracted && Strip(extracted[page]) != "" ==>
              Content(PageText(page, extracted, recognised)) == Content(extracted[page])
    ensures (page !in extracted || extracted[page] == "") && page in recognised && Strip(recognised[page]) != "" ==>
              Content(PageText(page, extracted, recognised)) == Content(recognised[page])
    ensures (page in extracted ==> Strip(extracted[page]) == "")
            && (page in recognised ==>
                  Strip(recognised[page]) == "" || (page in extracted && extracted[page] != "")) ==>
              PageText(page, extracted, recognised) == PLACEHOLDER
  {
    StripKeepsContent(RawText(page, extracted, recognised));
    assert Strip("") == "";
  }

  /** Printing pages and reading them back gives one section under the title, whose blocks hold,
      page by page and in order, exactly that page's visible lines, tagged with its number. */
  lemma {:induction false} PageRoundTrip(doc: Document, title: string, pageCount: nat,
                                         extracted: map<nat, string>, recognised: map<nat, string>)
    requires pageCount >= 1 && GoodTitle(title)
    requires PlainPages(1, pageCount, extracted, recognised)
    requires doc.isMarkdown && doc.text == Printed(title, pageCount, extracted, recognised)
    ensures |SectionsOf(doc)| == 1 && |SectionsOf(doc)[0].headingPath| == 1
    ensures BlockContent(MarkdownBlocksOf(SectionsOf(doc)[0].text)) == PageTags(1, pageCount, extracted, recognised)
  {
    var head := TitleIsHeading(title);
    var rest := PrintedLines(title, pageCount, extracted, recognised);
    var shown := PagesContent(1, pageCount, extracted, recognised);
    PagesArePlain(1, pageCount, extracted, recognised);
    ReadBack(doc, title, head, rest, shown);
    TagPages(1, pageCount, extracted, recognised, None);
  }

  // A title line over plain lines and page markers is one section; its blocks are tagged by the markers.
  lemma {:induction false} ReadBack(doc: Document, title: string, head: Head, rest: seq<string>, shown: seq<string>)
    requires doc.isMarkdown
    requires ItemOf("# " + title, None) == Heading(head) && DetectFence("# " + title) == None
    requires SplitLines(doc.text) == ["# " + title] + rest && AreLines(rest)
    requires Visible(rest) == shown && shown != [] && ShownAll(shown)
    ensures |SectionsOf(doc)| == 1 && |SectionsOf(doc)[0].headingPath| == 1
    ensures BlockContent(MarkdownBlocksOf(SectionsOf(doc)[0].text)) == TagVisible(shown, None)
  {
    TitledParts(doc, title, head, rest);
    RestIsShown(rest);
    TitledSection(doc, head, rest);
    TagsOfText(Normalize(Join("\n", rest)));
  }

  lemma {:induction false} TitledParts(doc: Document, title: string, head: Head, rest: seq<string>)
    requires ItemOf("# " + title, None) == Heading(head) && DetectFence("# " + title) == None
    requires ShownAll(Visible(rest)) && SplitLines(doc.text) == ["# " + title] + rest
    ensures DocumentParts(doc) == [Part([], []), Part([head], rest)]
  {
    SimpleBySight(rest);
    OneSection("# " + title, head, rest);
  }

  lemma {:induction false} TagsOfText(text: string)
    requires ShownAll(Visible(SplitLines(text)))
    ensures BlockContent(MarkdownBlocksOf(text)) == TagVisible(Visible(SplitLines(text)), None)
  {
    var lines := SplitLines(text);
    SimpleBySight(lines);
    assert lines[0..] == lines;
    TagsByMarker(lines, 0, Outside, None);
    BlocksConserve(text);
  }

  lemma {:induction false} RestIsShown(rest: seq<string>)
    requires AreLines(rest) && Visible(rest) != []
    ensures var text := Normalize(Join("\n", rest)); text != "" && Visible(SplitLines(text)) == Visible(rest)
  {
    var joined := Join("\n", rest);
    JoinContent(rest);
    NormalizeKeepsContent(joined);
    LinesAreContent(Normalize(joined));
    assert Content("") == [];
  }

  lemma {:induction false} TitledSection(doc: Document, head: Head, rest: seq<string>)
    requires doc.isMarkdown
    requires DocumentParts(doc) == [Part([], []), Part([head], rest)]
    requires Normalize(Join("\n", rest)) != ""
    ensures SectionsOf(doc) == [Section([head.title], Normalize(Join("\n", rest)))]
  {
    var parts := DocumentParts(doc);
    assert parts[..1] == [Part([], [])];
    assert parts[..1][..0] == [];
    assert Normalize(Join("\n", [])) == "";
    assert RenderParts(doc.title, parts[..1]) == [];
    assert Enclosing([head]) == [head] by {
      assert [head][1..] == [];
      assert Enclosing([head][1..]) == [];
    }
    assert Titles([head]) == [head.title];
  }
}
