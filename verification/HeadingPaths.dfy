/** Under which headings the sections of a document stand, said of the lines of the document. */
module HeadingPaths {
  import opened Text
  import opened Documents
  import opened Places
  import opened Lines
  import opened Sections

  // ----- the headings that enclose a place

  // No later heading of the same or a smaller level ends this one.
  ghost predicate Lasts(heads: seq<Head>, i: nat)
    requires i < |heads|
  {
    forall j :: i < j < |heads| ==> heads[j].level > heads[i].level
  }

  ghost predicate ListedAt(heads: seq<Head>, enclosing: seq<Head>, at: seq<nat>) {
    |at| == |enclosing| && forall k :: 0 <= k < |at| ==> at[k] < |heads| && enclosing[k] == heads[at[k]]
  }

  ghost predicate AllLasting(heads: seq<Head>, at: seq<nat>) {
    forall i :: 0 <= i < |heads| ==> (i in at <==> Lasts(heads, i))
  }

  // `at` lists, in order, exactly the headings that no later one ends.
  ghost predicate EnclosingAt(heads: seq<Head>, enclosing: seq<Head>, at: seq<nat>) {
    Rising(at) && ListedAt(heads, enclosing, at) && AllLasting(heads, at)
  }

  lemma LastsLater(heads: seq<Head>, i: nat)
    requires 0 < i < |heads|
    ensures Lasts(heads[1..], i - 1) <==> Lasts(heads, i)
  {
    if Lasts(heads[1..], i - 1) {
      forall j | i < j < |heads| ensures heads[j].level > heads[i].level {
        assert heads[1..][j - 1].level > heads[1..][i - 1].level;
      }
    }
  }

  lemma EnclosingMembers(heads: seq<Head>, later: seq<nat>, head: seq<nat>, i: nat)
    requires 0 < |heads| && i < |heads| && head == if Lasts(heads, 0) then [0] else []
    requires i > 0 ==> (i - 1 in later <==> Lasts(heads[1..], i - 1))
    ensures i in head + Shifted(later) <==> Lasts(heads, i)
  {
    if i > 0 {
      ShiftedHas(later, i - 1);
      LastsLater(heads, i);
    } else {
      ShiftedHas(later, 0);
    }
  }

  lemma ListedLater(heads: seq<Head>, enclosing: seq<Head>, later: seq<nat>)
    requires heads != [] && ListedAt(heads[1..], enclosing, later) && Rising(later)
    ensures ListedAt(heads, enclosing, Shifted(later)) && Rising(Shifted(later))
  {
    forall k | 0 <= k < |later| ensures Shifted(later)[k] < |heads| && enclosing[k] == heads[Shifted(later)[k]] {
      assert heads[1..][later[k]] == heads[later[k] + 1];
    }
  }

  lemma ListedFirst(heads: seq<Head>, enclosing: seq<Head>, at: seq<nat>)
    requires heads != [] && ListedAt(heads, enclosing, at) && Rising(at) && 0 !in at
    ensures ListedAt(heads, [heads[0]] + enclosing, [0] + at) && Rising([0] + at)
  {
  }

  lemma EnclosingMore(heads: seq<Head>, enclosing: seq<Head>, later: seq<nat>)
    requires heads != [] && EnclosingAt(heads[1..], enclosing, later)
    ensures Lasts(heads, 0) ==> EnclosingAt(heads, [heads[0]] + enclosing, [0] + Shifted(later))
    ensures !Lasts(heads, 0) ==> EnclosingAt(heads, enclosing, Shifted(later))
  {
    ListedLater(heads, enclosing, later);
    ShiftedHas(later, 0);
    ListedFirst(heads, enclosing, Shifted(later));
    MembersMore(heads, later);
  }

  lemma MembersMore(heads: seq<Head>, later: seq<nat>)
    requires heads != [] && AllLasting(heads[1..], later)
    ensures AllLasting(heads, if Lasts(heads, 0) then [0] + Shifted(later) else Shifted(later))
  {
    var head: seq<nat> := if Lasts(heads, 0) then [0] else [];
    forall i | 0 <= i < |heads| ensures i in head + Shifted(later) <==> Lasts(heads, i) {
      EnclosingMembers(heads, later, head, i);
    }
    assert head == [] ==> head + Shifted(later) == Shifted(later);
  }

  /** The enclosing headings are those that no later heading ends, in document order. */
  lemma {:induction false} EnclosingMeans(heads: seq<Head>) returns (at: seq<nat>)
    ensures EnclosingAt(heads, Enclosing(heads), at)
  {
    if heads == [] {
      at := [];
    } else {
      var later := EnclosingMeans(heads[1..]);
      EnclosingMore(heads, Enclosing(heads[1..]), later);
      at := if Lasts(heads, 0) then [0] + Shifted(later) else Shifted(later);
      if !Lasts(heads, 0) {
        var j :| 0 < j < |heads| && !(heads[j].level > heads[0].level);
        assert heads[j].level <= heads[0].level;
      }
    }
  }

  // ----- where the parts of a document lie

  ghost predicate ExactlyHeadings(items: seq<Item>, places: seq<nat>) {
    && (forall k :: 0 <= k < |places| ==> places[k] < |items| && items[places[k]].Heading?)
    && (forall i :: 0 <= i < |items| && items[i].Heading? ==> i in places)
  }

  // The places of the headings among the items.
  function HeadingPlaces(items: seq<Item>): (places: seq<nat>)
    ensures Rising(places) && ExactlyHeadings(items, places)
  {
    if items == [] then []
    else
      var n := |items| - 1;
      HeadingPlaces(items[..n]) + if items[n].Heading? then [n] else []
  }

  // Part `p` lies behind the heading before it, up to the next heading.
  function From(items: seq<Item>, p: nat): nat
    requires p <= |HeadingPlaces(items)|
  {
    if p == 0 then 0 else HeadingPlaces(items)[p - 1] + 1
  }

  function To(items: seq<Item>, p: nat): nat
    requires p <= |HeadingPlaces(items)|
  {
    if p < |HeadingPlaces(items)| then HeadingPlaces(items)[p] else |items|
  }

  function LinesOf(items: seq<Item>): (lines: seq<string>)
    requires forall i :: 0 <= i < |items| ==> items[i].Body?
    ensures |lines| == |items| && forall i :: 0 <= i < |items| ==> lines[i] == items[i].line
  {
    seq(|items|, i requires 0 <= i < |items| => items[i].line)
  }

  // Body lines between two headings or the ends of the document.
  ghost predicate Stretch(items: seq<Item>, m: nat, n: nat) {
    && m <= n <= |items|
    && (forall i :: m <= i < n ==> items[i].Body?)
    && (m > 0 ==> items[m - 1].Heading?) && (n < |items| ==> items[n].Heading?)
  }

  function HeadsIn(items: seq<Item>, places: seq<nat>): (heads: seq<Head>)
    requires forall k :: 0 <= k < |places| ==> places[k] < |items| && items[places[k]].Heading?
  {
    seq(|places|, k requires 0 <= k < |places| => items[places[k]].head)
  }

  ghost predicate AreHeadings(items: seq<Item>, places: seq<nat>) {
    forall k :: 0 <= k < |places| ==> places[k] < |items| && items[places[k]].Heading?
  }

  ghost predicate PartIn(items: seq<Item>, part: Part, m: nat, n: nat, at: seq<nat>) {
    && Stretch(items, m, n) && part.lines == LinesOf(items[m..n])
    && AreHeadings(items, at) && part.heads == HeadsIn(items, at)
  }

  ghost predicate PartAt(items: seq<Item>, part: Part, p: nat)
    requires p <= |HeadingPlaces(items)|
  {
    PartIn(items, part, From(items, p), To(items, p), HeadingPlaces(items)[..p])
  }

  lemma {:induction false} PlacesMore(items: seq<Item>, item: Item)
    ensures HeadingPlaces(items + [item]) == HeadingPlaces(items) + if item.Heading? then [|items|] else []
  {
    assert (items + [item])[..|items|] == items;
  }

  lemma HeadsStay(items: seq<Item>, item: Item, at: seq<nat>)
    requires AreHeadings(items, at)
    ensures AreHeadings(items + [item], at) && HeadsIn(items + [item], at) == HeadsIn(items, at)
  {
  }

  lemma PartInStays(items: seq<Item>, item: Item, part: Part, m: nat, n: nat, at: seq<nat>)
    requires PartIn(items, part, m, n, at) && (n < |items| || item.Heading?)
    ensures PartIn(items + [item], part, m, n, at)
  {
    HeadsStay(items, item, at);
    assert (items + [item])[m..n] == items[m..n];
  }

  lemma PartInGrows(items: seq<Item>, line: string, part: Part, m: nat, at: seq<nat>)
    requires PartIn(items, part, m, |items|, at)
    ensures PartIn(items + [Body(line)], Part(part.heads, part.lines + [line]), m, |items| + 1, at)
  {
    var all := items + [Body(line)];
    HeadsStay(items, Body(line), at);
    assert all[m..|items| + 1] == items[m..|items|] + [Body(line)];
    assert LinesOf(all[m..|items| + 1]) == LinesOf(items[m..|items|]) + [line];
  }

  lemma PartInOpens(items: seq<Item>, head: Head, heads: seq<Head>, at: seq<nat>)
    requires AreHeadings(items, at) && heads == HeadsIn(items, at)
    ensures PartIn(items + [Heading(head)], Part(heads + [head], []), |items| + 1, |items| + 1, at + [|items|])
  {
    var all := items + [Heading(head)];
    HeadsStay(items, Heading(head), at);
    assert HeadsIn(all, at + [|items|]) == HeadsIn(all, at) + [head];
    assert all[|items| + 1..|items| + 1] == [];
  }

  /** There is a part behind each heading and one before them all, and its headings are those before it. */
  lemma {:induction false} PartsLie(items: seq<Item>)
    ensures |Parts(items)| == |HeadingPlaces(items)| + 1
    ensures forall p :: 0 <= p < |Parts(items)| ==> PartAt(items, Parts(items)[p], p)
  {
    if items != [] {
      var init, item := items[..|items| - 1], items[|items| - 1];
      assert items == init + [item];
      PartsLie(init);
      forall p | 0 <= p < |Parts(items)| ensures PartAt(items, Parts(items)[p], p) {
        PartLies(init, item, p);
      }
    }
  }

  lemma {:induction false} EarlierLies(init: seq<Item>, item: Item, part: Part, p: nat)
    requires p <= |HeadingPlaces(init)| && PartAt(init, part, p)
    requires p < |HeadingPlaces(init)| || item.Heading?
    ensures p <= |HeadingPlaces(init + [item])| && PartAt(init + [item], part, p)
  {
    PlacesMore(init, item);
    assert HeadingPlaces(init + [item])[..p] == HeadingPlaces(init)[..p];
    PartInStays(init, item, part, From(init, p), To(init, p), HeadingPlaces(init)[..p]);
  }

  lemma {:induction false} LastPlace(init: seq<Item>, item: Item, p: nat)
    requires p == |HeadingPlaces(init)| && item.Body?
    ensures HeadingPlaces(init + [item]) == HeadingPlaces(init) && HeadingPlaces(init)[..p] == HeadingPlaces(init)
    ensures From(init + [item], p) == From(init, p) && To(init + [item], p) == |init| + 1 && To(init, p) == |init|
  {
    PlacesMore(init, item);
  }

  lemma {:induction false} NextPlace(init: seq<Item>, item: Item, p: nat)
    requires p == |HeadingPlaces(init)| && item.Heading?
    ensures HeadingPlaces(init)[..p] == HeadingPlaces(init)
    ensures |HeadingPlaces(init + [item])| == p + 1
    ensures HeadingPlaces(init + [item])[..p + 1] == HeadingPlaces(init) + [|init|]
    ensures From(init + [item], p + 1) == To(init + [item], p + 1) == |init| + 1
  {
    PlacesMore(init, item);
    assert (HeadingPlaces(init) + [|init|])[..p + 1] == HeadingPlaces(init) + [|init|];
  }

  lemma {:induction false} PartInAt(items: seq<Item>, part: Part, p: nat, m: nat, n: nat, at: seq<nat>)
    requires p <= |HeadingPlaces(items)| && at == HeadingPlaces(items)[..p] && m == From(items, p) && n == To(items, p)
    ensures PartIn(items, part, m, n, at) <==> PartAt(items, part, p)
  {
  }

  lemma {:induction false} LastLies(init: seq<Item>, line: string, part: Part, p: nat, at: seq<nat>)
    requires at == HeadingPlaces(init) && p == |at| && PartAt(init, part, p)
    ensures HeadingPlaces(init + [Body(line)]) == at
    ensures PartAt(init + [Body(line)], Part(part.heads, part.lines + [line]), p)
  {
    var m := From(init, p);
    LastPlace(init, Body(line), p);
    PartInAt(init, part, p, m, |init|, at);
    PartInGrows(init, line, part, m, at);
    PartInAt(init + [Body(line)], Part(part.heads, part.lines + [line]), p, m, |init| + 1, at);
  }

  lemma {:induction false} NextLies(init: seq<Item>, head: Head, part: Part, p: nat, at: seq<nat>)
    requires at == HeadingPlaces(init) && p == |at| && PartAt(init, part, p)
    ensures |HeadingPlaces(init + [Heading(head)])| == p + 1
    ensures PartAt(init + [Heading(head)], Part(part.heads + [head], []), p + 1)
  {
    NextPlace(init, Heading(head), p);
    PartInAt(init, part, p, From(init, p), |init|, at);
    PartInOpens(init, head, part.heads, at);
    PartInAt(init + [Heading(head)], Part(part.heads + [head], []), p + 1, |init| + 1, |init| + 1, at + [|init|]);
  }

  lemma {:induction false} PartLies(init: seq<Item>, item: Item, p: nat)
    requires |Parts(init)| == |HeadingPlaces(init)| + 1
    requires forall q :: 0 <= q < |Parts(init)| ==> PartAt(init, Parts(init)[q], q)
    requires p < |Parts(init + [item])|
    ensures |Parts(init + [item])| == |HeadingPlaces(init + [item])| + 1
    ensures PartAt(init + [item], Parts(init + [item])[p], p)
  {
    var parts := Parts(init);
    assert (init + [item])[..|init|] == init;
    PlacesMore(init, item);
    if p < |parts| {
      assert PartAt(init, parts[p], p);
      if p < |parts| - 1 || item.Heading? {
        EarlierLies(init, item, parts[p], p);
      } else {
        LastLies(init, item.line, parts[p], p, HeadingPlaces(init));
      }
    } else {
      assert PartAt(init, parts[p - 1], p - 1);
      NextLies(init, item.head, parts[p - 1], p - 1, HeadingPlaces(init));
    }
  }

  // ----- the paths of the sections

  // A heading before `m` that no later heading before `m`, of the same or a smaller level, ends.
  ghost predicate LeadsTo(items: seq<Item>, m: nat, i: nat)
    requires i < m <= |items|
  {
    items[i].Heading?
    && forall j :: i < j < m && items[j].Heading? ==> items[j].head.level > items[i].head.level
  }

  ghost predicate LeadingAt(items: seq<Item>, m: nat, places: seq<nat>)
    requires m <= |items|
  {
    && (forall k :: 0 <= k < |places| ==> places[k] < m && items[places[k]].Heading?)
    && (forall i :: 0 <= i < m ==> (i in places <==> LeadsTo(items, m, i)))
  }

  // The titles, in document order, of the headings that lead to `m`, or the title of the document.
  ghost predicate PathAt(title: string, items: seq<Item>, m: nat, path: seq<string>, places: seq<nat>)
    requires m <= |items|
  {
    && Rising(places) && LeadingAt(items, m, places)
    && path == if places == [] then [title] else Titles(HeadsIn(items, places))
  }

  function Picked(at: seq<nat>, e: seq<nat>): (r: seq<nat>)
    requires forall k :: 0 <= k < |e| ==> e[k] < |at|
    ensures |r| == |e| && forall k :: 0 <= k < |e| ==> r[k] == at[e[k]]
  {
    seq(|e|, k requires 0 <= k < |e| => at[e[k]])
  }

  lemma PickedRising(at: seq<nat>, e: seq<nat>)
    requires Rising(at) && Rising(e) && forall k :: 0 <= k < |e| ==> e[k] < |at|
    ensures Rising(Picked(at, e))
  {
  }

  lemma PickedHas(at: seq<nat>, e: seq<nat>, q: nat)
    requires Rising(at) && q < |at| && forall k :: 0 <= k < |e| ==> e[k] < |at|
    ensures at[q] in Picked(at, e) <==> q in e
  {
    if q in e {
      var k :| 0 <= k < |e| && e[k] == q;
      assert Picked(at, e)[k] == at[q];
    }
  }

  // A heading leads to `m` when none of the later ones before `m` ends it.
  lemma LeadsIsLasts(items: seq<Item>, m: nat, at: seq<nat>, q: nat)
    requires AllBefore(items, m, at) && q < |at|
    ensures LeadsTo(items, m, at[q]) <==> Lasts(HeadsIn(items, at), q)
  {
    var heads := HeadsIn(items, at);
    if Lasts(heads, q) {
      forall j | at[q] < j < m && items[j].Heading? ensures items[j].head.level > items[at[q]].head.level {
        assert j in at;
        var r :| 0 <= r < |at| && at[r] == j;
        assert heads[r].level > heads[q].level;
      }
    }
    if LeadsTo(items, m, at[q]) {
      forall r | q < r < |heads| ensures heads[r].level > heads[q].level {
        assert items[at[r]].head.level > items[at[q]].head.level;
      }
    }
  }

  lemma LeadingMembers(items: seq<Item>, m: nat, at: seq<nat>, e: seq<nat>, i: nat)
    requires AllBefore(items, m, at) && i < m
    requires forall k :: 0 <= k < |e| ==> e[k] < |at|
    requires AllLasting(HeadsIn(items, at), e)
    ensures i in Picked(at, e) <==> LeadsTo(items, m, i)
  {
    if items[i].Heading? {
      assert i in at;
      var q :| 0 <= q < |at| && at[q] == i;
      PickedHas(at, e, q);
      LeadsIsLasts(items, m, at, q);
    }
  }

  // Places of headings before `m`, and all of them.
  ghost predicate AllBefore(items: seq<Item>, m: nat, at: seq<nat>) {
    && m <= |items| && AreHeadings(items, at) && Rising(at)
    && (forall k :: 0 <= k < |at| ==> at[k] < m)
    && (forall i :: 0 <= i < m && items[i].Heading? ==> i in at)
  }

  lemma FirstPlaces(places: seq<nat>, p: nat, i: nat)
    requires Rising(places) && p <= |places| && i in places && p > 0 && i <= places[p - 1]
    ensures i in places[..p]
  {
    var q :| 0 <= q < |places| && places[q] == i;
    assert q < p;
    assert places[..p][q] == i;
  }

  lemma FirstAreBefore(items: seq<Item>, places: seq<nat>, p: nat, m: nat)
    requires Rising(places) && ExactlyHeadings(items, places) && p <= |places|
    requires m == if p == 0 then 0 else places[p - 1] + 1
    ensures AllBefore(items, m, places[..p])
  {
    forall i | 0 <= i < m && items[i].Heading? ensures i in places[..p] {
      assert i in places;
      FirstPlaces(places, p, i);
    }
  }

  lemma {:induction false} HeadingsBefore(items: seq<Item>, p: nat)
    requires p <= |HeadingPlaces(items)|
    ensures AllBefore(items, From(items, p), HeadingPlaces(items)[..p])
  {
    FirstAreBefore(items, HeadingPlaces(items), p, From(items, p));
  }

  lemma PathLies(title: string, items: seq<Item>, m: nat, at: seq<nat>) returns (places: seq<nat>)
    requires AllBefore(items, m, at)
    ensures PathAt(title, items, m, PathOf(title, HeadsIn(items, at)), places)
  {
    var heads := HeadsIn(items, at);
    var e := EnclosingMeans(heads);
    places := Picked(at, e);
    PickedRising(at, e);
    forall i | 0 <= i < m ensures i in places <==> LeadsTo(items, m, i) {
      LeadingMembers(items, m, at, e, i);
    }
    assert HeadsIn(items, places) == Enclosing(heads);
  }

  // The sections, each with the part it comes from.
  ghost predicate ComeFrom(title: string, parts: seq<Part>, sections: seq<Section>, ps: seq<nat>) {
    && |ps| == |sections| && Rising(ps)
    && forall k :: 0 <= k < |ps| ==>
         ps[k] < |parts| && sections[k] == Section(PathOf(title, parts[ps[k]].heads),
                                                   Normalize(Join("\n", parts[ps[k]].lines)))
  }

  lemma ComeMore(title: string, parts: seq<Part>, part: Part, sections: seq<Section>, ps: seq<nat>)
    requires ComeFrom(title, parts, sections, ps)
    ensures RenderPart(title, part) == [] ==> ComeFrom(title, parts + [part], sections, ps)
    ensures RenderPart(title, part) != [] ==>
              ComeFrom(title, parts + [part], sections + RenderPart(title, part), ps + [|parts|])
  {
    assert forall p :: 0 <= p < |parts| ==> (parts + [part])[p] == parts[p];
  }

  lemma {:induction false} RenderedFrom(title: string, parts: seq<Part>) returns (ps: seq<nat>)
    ensures ComeFrom(title, parts, RenderParts(title, parts), ps)
  {
    if parts == [] {
      ps := [];
    } else {
      var n := |parts| - 1;
      var sections := RenderParts(title, parts[..n]);
      ps := RenderedFrom(title, parts[..n]);
      ComeMore(title, parts[..n], parts[n], sections, ps);
      assert parts == parts[..n] + [parts[n]];
      if RenderPart(title, parts[n]) != [] {
        ps := ps + [n];
      } else {
        assert sections + [] == sections;
      }
    }
  }

  // A section holds the lines of a stretch, under the titles of the headings that lead to it.
  ghost predicate SectionAt(title: string, items: seq<Item>, section: Section, m: nat, n: nat) {
    && Stretch(items, m, n) && section.text == Normalize(Join("\n", LinesOf(items[m..n])))
    && exists places :: PathAt(title, items, m, section.headingPath, places)
  }

  lemma {:induction false} SectionLies(title: string, items: seq<Item>, part: Part, p: nat)
    requires p <= |HeadingPlaces(items)| && PartAt(items, part, p)
    ensures SectionAt(title, items, Section(PathOf(title, part.heads), Normalize(Join("\n", part.lines))),
                      From(items, p), To(items, p))
  {
    HeadingsBefore(items, p);
    var places := PathLies(title, items, From(items, p), HeadingPlaces(items)[..p]);
  }

  function ItemsOf(doc: Document): seq<Item> {
    Items(SplitLines(doc.text))
  }

  // Some body line of the document is not blank.
  ghost predicate HasBody(items: seq<Item>) {
    exists i :: 0 <= i < |items| && items[i].Body? && Strip(items[i].line) != ""
  }

  lemma BodyMore(items: seq<Item>, item: Item)
    ensures HasBody(items + [item]) <==> HasBody(items) || (item.Body? && Strip(item.line) != "")
  {
    var all := items + [item];
    if i :| 0 <= i < |items| && items[i].Body? && Strip(items[i].line) != "" {
      assert all[i].Body? && Strip(all[i].line) != "";
    }
    if item.Body? && Strip(item.line) != "" {
      assert all[|items|] == item;
    }
  }

  lemma {:induction false} BodyIsVisible(items: seq<Item>)
    ensures HasBody(items) <==> Visible(BodyLines(items)) != []
  {
    if items != [] {
      var n := |items| - 1;
      BodyIsVisible(items[..n]);
      BodyMore(items[..n], items[n]);
      assert items == items[..n] + [items[n]];
      if items[n].Body? {
        VisibleSplit(BodyLines(items[..n]), [items[n].line]);
      } else {
        assert BodyLines(items) == BodyLines(items[..n]);
      }
    }
  }

  lemma BodyIsRendered(doc: Document)
    requires HasBody(ItemsOf(doc))
    ensures RenderParts(doc.title, DocumentParts(doc)) != []
  {
    var items := ItemsOf(doc);
    BodyIsVisible(items);
    ItemsAreLines(SplitLines(doc.text));
    PartsKeepLines(items);
    RenderKeepsContent(doc.title, Parts(items));
  }

  lemma RenderedHasContent(path: seq<string>, lines: seq<string>)
    requires Rendered(path, lines) != []
    ensures Content(Rendered(path, lines)[0].text) != []
  {
    var text := Join("\n", lines);
    var _, _ := StripIsMiddle(CollapseNewlines(TrimLineEnds(UnifyNewlines(text))));
    VisibleHasContent(Normalize(text));
  }

  lemma {:induction false} PartsHaveContent(title: string, parts: seq<Part>)
    requires RenderParts(title, parts) != []
    ensures SectionContent(RenderParts(title, parts)) != []
  {
    var n := |parts| - 1;
    var before, one := RenderParts(title, parts[..n]), RenderPart(title, parts[n]);
    if one == [] {
      PartsHaveContent(title, parts[..n]);
      assert before + one == before;
    } else {
      RenderedHasContent(PathOf(title, parts[n].heads), parts[n].lines);
      assert (before + one)[..|before|] == before;
    }
  }

  /** A document without a body, or one that is not markdown, is one section with all its text under its title,
      or none when it is blank. */
  lemma BodilessIsWhole(doc: Document)
    requires !doc.isMarkdown || !HasBody(ItemsOf(doc))
    ensures SectionsOf(doc) == if Normalize(doc.text) == "" then [] else [Section([doc.title], Normalize(doc.text))]
  {
    if doc.isMarkdown && RenderParts(doc.title, DocumentParts(doc)) != [] {
      var items := ItemsOf(doc);
      PartsHaveContent(doc.title, Parts(items));
      BodyIsVisible(items);
      ItemsAreLines(SplitLines(doc.text));
      PartsKeepLines(items);
      RenderKeepsContent(doc.title, Parts(items));
    }
  }

  // Where the sections begin and end.
  ghost predicate LieAt(title: string, items: seq<Item>, sections: seq<Section>, from: seq<nat>, to: seq<nat>) {
    && |from| == |to| == |sections|
    && (forall k :: 0 <= k < |from| ==> SectionAt(title, items, sections[k], from[k], to[k]))
    && (forall k, n :: 0 <= k < n < |from| ==> to[k] < from[n])
  }

  function Starts(items: seq<Item>, ps: seq<nat>): (from: seq<nat>)
    requires forall k :: 0 <= k < |ps| ==> ps[k] <= |HeadingPlaces(items)|
    ensures |from| == |ps| && forall k :: 0 <= k < |from| ==> from[k] == From(items, ps[k])
  {
    seq(|ps|, k requires 0 <= k < |ps| => From(items, ps[k]))
  }

  function Ends(items: seq<Item>, ps: seq<nat>): (to: seq<nat>)
    requires forall k :: 0 <= k < |ps| ==> ps[k] <= |HeadingPlaces(items)|
    ensures |to| == |ps| && forall k :: 0 <= k < |to| ==> to[k] == To(items, ps[k])
  {
    seq(|ps|, k requires 0 <= k < |ps| => To(items, ps[k]))
  }

  lemma {:induction false} SectionsLie(title: string, items: seq<Item>, parts: seq<Part>, sections: seq<Section>,
                                       ps: seq<nat>)
    requires ComeFrom(title, parts, sections, ps) && |parts| == |HeadingPlaces(items)| + 1
    requires forall p :: 0 <= p < |parts| ==> PartAt(items, parts[p], p)
    ensures LieAt(title, items, sections, Starts(items, ps), Ends(items, ps))
  {
    forall k | 0 <= k < |ps| ensures SectionAt(title, items, sections[k], From(items, ps[k]), To(items, ps[k])) {
      SectionLies(title, items, parts[ps[k]], ps[k]);
    }
    forall k, n | 0 <= k < n < |ps| ensures To(items, ps[k]) < From(items, ps[n]) {
      PlacesRise(items, ps[k], ps[n]);
    }
  }

  /** In a markdown document with a body, the sections are stretches of body lines between headings, in order, and
      the path of each is, outermost first, the titles of exactly those headings before it that no later heading
      before it ends, or the title of the document when there is none. */
  lemma SectionPaths(doc: Document) returns (from: seq<nat>, to: seq<nat>)
    requires doc.isMarkdown && HasBody(ItemsOf(doc))
    ensures LieAt(doc.title, ItemsOf(doc), SectionsOf(doc), from, to)
  {
    BodyIsRendered(doc);
    PartsLie(ItemsOf(doc));
    var parts := Parts(ItemsOf(doc));
    var ps := RenderedFrom(doc.title, parts);
    SectionsLie(doc.title, ItemsOf(doc), parts, RenderParts(doc.title, parts), ps);
    from, to := Starts(ItemsOf(doc), ps), Ends(ItemsOf(doc), ps);
  }

  lemma {:induction false} PlacesRise(items: seq<Item>, p: nat, q: nat)
    requires p < q <= |HeadingPlaces(items)|
    ensures To(items, p) < From(items, q)
  {
    assert HeadingPlaces(items)[p] <= HeadingPlaces(items)[q - 1];
  }
}
