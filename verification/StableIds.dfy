/** Content-derived chunk identifiers and the links between neighbouring chunks. */
module StableIds {
  import opened Options
  import opened Text
  import Documents
  import Lines

  datatype Chunk = Chunk(headings: seq<string>, text: string)

  // What an identifier is computed from; `document` also stands for the two version strings.
  datatype Parts = Parts(document: string, headings: seq<string>, text: string, occurrence: nat)

  datatype StableChunk = StableChunk(id: string, chunk: Chunk, previous: Option<string>, next: Option<string>)

  function TrimLines(lines: seq<string>): seq<string> {
    if lines == [] then [] else [StripRight(lines[0])] + TrimLines(lines[1..])
  }

  // White space at line ends and at both ends of the text does not count.
  function NormalizeForHash(text: string): string {
    Strip(Documents.Join("\n", TrimLines(Lines.SplitLines(UnifyNewlines(text)))))
  }

  // How many chunks up to this one have its headings and text.
  function Occurrences(chunks: seq<Chunk>, target: Chunk): nat {
    if chunks == [] then 0
    else Occurrences(chunks[..|chunks| - 1], target) + if chunks[|chunks| - 1] == target then 1 else 0
  }

  function Occurrence(chunks: seq<Chunk>, i: nat): nat
    requires i < |chunks|
  {
    Occurrences(chunks[..i + 1], chunks[i])
  }

  function PartsOf(document: string, chunks: seq<Chunk>, i: nat): Parts
    requires i < |chunks|
  {
    Parts(document, chunks[i].headings, NormalizeForHash(chunks[i].text), Occurrence(chunks, i))
  }

  function Ids(hash: Parts -> string, document: string, chunks: seq<Chunk>): (ids: seq<string>)
    ensures |ids| == |chunks|
  {
    seq(|chunks|, i requires 0 <= i < |chunks| => hash(PartsOf(document, chunks, i)))
  }

  ghost predicate Injective(hash: Parts -> string) {
    forall p, q :: hash(p) == hash(q) ==> p == q
  }

  ghost predicate Distinct(ids: seq<string>) {
    forall i, j :: 0 <= i < j < |ids| ==> ids[i] != ids[j]
  }

  // ----- when identifiers are distinct

  lemma {:induction false} MoreOccurrences(chunks: seq<Chunk>, more: seq<Chunk>, target: Chunk)
    ensures Occurrences(chunks, target) <= Occurrences(chunks + more, target)
    ensures target in more ==> Occurrences(chunks, target) < Occurrences(chunks + more, target)
  {
    if more == [] {
      assert chunks + more == chunks;
    } else {
      var n := |more| - 1;
      MoreOccurrences(chunks, more[..n], target);
      assert (chunks + more)[..|chunks + more| - 1] == chunks + more[..n];
      assert more == more[..n] + [more[n]];
    }
  }

  // Repeated chunks get rising occurrence numbers.
  lemma RepeatsAreNumbered(chunks: seq<Chunk>, i: nat, j: nat)
    requires i < j < |chunks| && chunks[i] == chunks[j]
    ensures Occurrence(chunks, i) < Occurrence(chunks, j)
  {
    var between := chunks[i + 1..j + 1];
    assert chunks[..j + 1] == chunks[..i + 1] + between;
    assert between[|between| - 1] == chunks[j];
    MoreOccurrences(chunks[..i + 1], between, chunks[i]);
  }

  // Two different texts under the same headings that only white space tells apart, with equal counts so far.
  predicate Clash(chunks: seq<Chunk>, i: nat, j: nat)
    requires i < |chunks| && j < |chunks|
  {
    && chunks[i].headings == chunks[j].headings && chunks[i].text != chunks[j].text
    && NormalizeForHash(chunks[i].text) == NormalizeForHash(chunks[j].text)
    && Occurrence(chunks, i) == Occurrence(chunks, j)
  }

  lemma SameIdMeansClash(hash: Parts -> string, document: string, chunks: seq<Chunk>, i: nat, j: nat)
    requires Injective(hash) && i < j < |chunks|
    ensures Ids(hash, document, chunks)[i] == Ids(hash, document, chunks)[j] <==> Clash(chunks, i, j)
  {
    if chunks[i] == chunks[j] {
      RepeatsAreNumbered(chunks, i, j);
    }
    var p, q := PartsOf(document, chunks, i), PartsOf(document, chunks, j);
    assert hash(p) == hash(q) <==> p == q;
    assert chunks[i].headings == chunks[j].headings && chunks[i].text == chunks[j].text ==> chunks[i] == chunks[j];
  }

  // All identifiers of a document are distinct exactly when no two chunks clash.
  lemma IdsAreDistinct(hash: Parts -> string, document: string, chunks: seq<Chunk>)
    requires Injective(hash)
    ensures Distinct(Ids(hash, document, chunks)) <==> forall i, j :: 0 <= i < j < |chunks| ==> !Clash(chunks, i, j)
  {
    var ids := Ids(hash, document, chunks);
    forall i, j | 0 <= i < j < |chunks| ensures ids[i] == ids[j] <==> Clash(chunks, i, j) {
      SameIdMeansClash(hash, document, chunks, i, j);
    }
  }

  // The normalisation tells the given texts apart.
  ghost predicate TellsApart(chunks: seq<Chunk>) {
    forall i, j ::
      0 <= i < |chunks| && 0 <= j < |chunks| && NormalizeForHash(chunks[i].text) == NormalizeForHash(chunks[j].text)
      ==> chunks[i].text == chunks[j].text
  }

  // So repeats alone never make two identifiers equal.
  lemma RepeatsAreDistinct(hash: Parts -> string, document: string, chunks: seq<Chunk>)
    requires Injective(hash) && TellsApart(chunks)
    ensures Distinct(Ids(hash, document, chunks))
  {
    IdsAreDistinct(hash, document, chunks);
  }

  const WIDE := "a\U{3000}\nb"
  const PLAIN := "a\nb"

  lemma WideLines()
    ensures TrimLines(Lines.SplitLines(UnifyNewlines(WIDE))) == ["a", "b"]
  {
    assert WIDE[1..] == "\U{3000}\nb" && WIDE[1..][1..] == "\nb" && WIDE[1..][1..][1..] == "b";
    assert UnifyNewlines("b") == "b";
    assert UnifyNewlines("\nb") == "\nb";
    assert UnifyNewlines("\U{3000}\nb") == "\U{3000}\nb";
    assert UnifyNewlines(WIDE) == WIDE;
    assert Lines.LineEnd("\nb") == 0;
    assert Lines.LineEnd("\U{3000}\nb") == 1;
    assert Lines.LineEnd(WIDE) == 2;
    assert Lines.SplitLines("b") == ["b"];
    assert WIDE[..2] == "a\U{3000}" && WIDE[3..] == "b";
    assert Lines.SplitLines(WIDE) == ["a\U{3000}", "b"];
    assert "a\U{3000}"[..1] == "a";
    assert StripRight("a\U{3000}") == StripRight("a") == "a";
    assert TrimLines(["b"]) == ["b"];
    assert ["a\U{3000}", "b"][1..] == ["b"];
  }

  // An ideographic space at the end of an inner line is lost in the normalisation.
  lemma WideSpaceIsLost()
    ensures WIDE != PLAIN && NormalizeForHash(WIDE) == NormalizeForHash(PLAIN)
  {
    WideLines();
    assert |WIDE| != |PLAIN|;
  }

  lemma TwoClash(hash: Parts -> string, document: string, a: Chunk, b: Chunk)
    requires a.headings == b.headings && a.text != b.text && NormalizeForHash(a.text) == NormalizeForHash(b.text)
    ensures !Distinct(Ids(hash, document, [a, b]))
  {
    var chunks := [a, b];
    assert chunks[..1] == [a] && chunks[..2] == chunks && chunks[..2][..1] == [a];
    assert Occurrences([a], a) == 1 && Occurrences([a], b) == 0;
    assert Occurrences([a], b) == 0 && Occurrences(chunks, b) == 1;
    assert Occurrence(chunks, 0) == 1 && Occurrence(chunks, 1) == 1;
    assert PartsOf(document, chunks, 0) == PartsOf(document, chunks, 1);
    var ids := Ids(hash, document, chunks);
    assert ids[0] == ids[1];
  }

  // Without the condition two different chunks can share an identifier.
  lemma ClashExists(hash: Parts -> string, document: string)
    ensures !Distinct(Ids(hash, document, [Chunk(["t"], WIDE), Chunk(["t"], PLAIN)]))
  {
    WideSpaceIsLost();
    TwoClash(hash, document, Chunk(["t"], WIDE), Chunk(["t"], PLAIN));
  }

  // ----- identifiers of earlier chunks do not depend on later ones

  lemma AppendKeepsIds(hash: Parts -> string, document: string, chunks: seq<Chunk>, more: seq<Chunk>)
    ensures Ids(hash, document, chunks + more)[..|chunks|] == Ids(hash, document, chunks)
  {
    var all := chunks + more;
    forall i | 0 <= i < |chunks| ensures PartsOf(document, all, i) == PartsOf(document, chunks, i) {
      assert all[..i + 1] == chunks[..i + 1];
    }
  }

  // ----- links

  function LinkAt(ids: seq<string>, i: int): Option<string> {
    if 0 <= i < |ids| then Some(ids[i]) else None
  }

  function Linked(ids: seq<string>, chunks: seq<Chunk>): (linked: seq<StableChunk>)
    requires |ids| == |chunks|
    ensures |linked| == |chunks|
  {
    seq(|chunks|,
        i requires 0 <= i < |chunks| => StableChunk(ids[i], chunks[i], LinkAt(ids, i - 1), LinkAt(ids, i + 1)))
  }

  // Next and previous point to each other, and only neighbours are linked.
  lemma LinksAreConsistent(ids: seq<string>, chunks: seq<Chunk>, i: nat, j: nat)
    requires |ids| == |chunks| && Distinct(ids) && i < |chunks| && j < |chunks|
    ensures Linked(ids, chunks)[i].next == Some(ids[j]) <==> j == i + 1
    ensures Linked(ids, chunks)[i].next == Some(ids[j]) <==> Linked(ids, chunks)[j].previous == Some(ids[i])
  {
  }

  // The place of the chunk with an identifier.
  function PlaceOf(linked: seq<StableChunk>, id: string): Option<nat> {
    if linked == [] then None
    else if linked[|linked| - 1].id == id then Some(|linked| - 1)
    else PlaceOf(linked[..|linked| - 1], id)
  }

  // Follows the next links, looking each chunk up by its identifier.
  function Follow(linked: seq<StableChunk>, i: nat, steps: nat): Option<nat>
    requires i < |linked|
    decreases steps
  {
    if steps == 0 then Some(i)
    else if linked[i].next.None? then None
    else
      match PlaceOf(linked, linked[i].next.value)
      case None => None
      case Some(n) => if n < |linked| then Follow(linked, n, steps - 1) else None
  }

  lemma {:induction false} PlaceIsFound(linked: seq<StableChunk>, i: nat)
    requires i < |linked| && forall k, n :: 0 <= k < n < |linked| ==> linked[k].id != linked[n].id
    ensures PlaceOf(linked, linked[i].id) == Some(i)
  {
    if i < |linked| - 1 {
      PlaceIsFound(linked[..|linked| - 1], i);
    }
  }

  // From any chunk the links lead through all later chunks in order and then stop.
  lemma {:induction false} LinksVisitAll(ids: seq<string>, chunks: seq<Chunk>, i: nat, steps: nat)
    requires |ids| == |chunks| && Distinct(ids) && i < |chunks|
    ensures Follow(Linked(ids, chunks), i, steps) == if i + steps < |chunks| then Some(i + steps) else None
    decreases steps
  {
    if steps > 0 && i + 1 < |chunks| {
      PlaceIsFound(Linked(ids, chunks), i + 1);
      LinksVisitAll(ids, chunks, i + 1, steps - 1);
    }
  }

  // ----- the assignment of identifiers and links

  method OccurrenceIndex(chunks: seq<Chunk>, i: nat) returns (occurrence: nat)
    requires i < |chunks|
    ensures occurrence == Occurrence(chunks, i)
  {
    var target := chunks[i];
    occurrence := 0;
    for k := 0 to i + 1
      invariant occurrence == Occurrences(chunks[..k], target)
    {
      assert chunks[..k + 1][..k] == chunks[..k];
      if chunks[k].headings == target.headings && chunks[k].text == target.text {
        occurrence := occurrence + 1;
      }
    }
  }

  method AssignIds(hash: Parts -> string, document: string, chunks: seq<Chunk>) returns (ids: seq<string>)
    ensures ids == Ids(hash, document, chunks)
  {
    ids := [];
    for i := 0 to |chunks|
      invariant |ids| == i && forall k :: 0 <= k < i ==> ids[k] == hash(PartsOf(document, chunks, k))
    {
      var occurrence := OccurrenceIndex(chunks, i);
      var normalized := NormalizeForHash(chunks[i].text);
      ids := ids + [hash(Parts(document, chunks[i].headings, normalized, occurrence))];
    }
  }

  method AssignLinks(ids: seq<string>, chunks: seq<Chunk>) returns (linked: seq<StableChunk>)
    requires |ids| == |chunks|
    ensures linked == Linked(ids, chunks)
  {
    linked := [];
    for i := 0 to |chunks|
      invariant |linked| == i && forall k :: 0 <= k < i ==> linked[k] == Linked(ids, chunks)[k]
    {
      var previous := if i > 0 then Some(ids[i - 1]) else None;
      var next := if i < |chunks| - 1 then Some(ids[i + 1]) else None;
      linked := linked + [StableChunk(ids[i], chunks[i], previous, next)];
    }
  }

  method StandardizeChunks(hash: Parts -> string, document: string, chunks: seq<Chunk>)
    returns (linked: seq<StableChunk>)
    ensures linked == Linked(Ids(hash, document, chunks), chunks)
  {
    var ids := AssignIds(hash, document, chunks);
    linked := AssignLinks(ids, chunks);
  }
}
