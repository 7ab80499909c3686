/** What a context pack holds: which candidates are offered to it, in which order, and which of these it takes. */
module ContextPacks {
  import opened Options
  import opened Ordering
  import opened Places
  import opened ContextSelection

  // ----- the first of each group

  ghost predicate NewGroup(offered: seq<Candidate>, i: nat)
    requires i < |offered|
  {
    forall j :: 0 <= j < i ==> GroupOf(offered[j]) != GroupOf(offered[i])
  }

  // `at` lists, in order, the first `cap` places at which a group is offered for the first time.
  ghost predicate FirstPlaces(offered: seq<Candidate>, cap: nat, at: seq<nat>) {
    && |at| <= cap
    && (forall k :: 0 <= k < |at| ==> at[k] < |offered| && NewGroup(offered, at[k]))
    && Rising(at)
    && (forall i :: 0 <= i < |offered| && NewGroup(offered, i) ==>
          i in at || (|at| == cap && forall k :: 0 <= k < |at| ==> at[k] < i))
  }

  ghost predicate Picks(offered: seq<Candidate>, at: seq<nat>, selected: seq<Candidate>) {
    |selected| == |at| && forall k :: 0 <= k < |at| ==> at[k] < |offered| && selected[k] == offered[at[k]]
  }

  lemma NewStays(offered: seq<Candidate>, c: Candidate, i: nat)
    requires i < |offered|
    ensures NewGroup(offered + [c], i) <==> NewGroup(offered, i)
  {
    var all := offered + [c];
    assert forall j :: 0 <= j <= i ==> all[j] == offered[j];
  }

  lemma NewIsUnseen(offered: seq<Candidate>, c: Candidate)
    ensures NewGroup(offered + [c], |offered|) <==> GroupOf(c) !in Groups(offered)
  {
    var all := offered + [c];
    if GroupOf(c) in Groups(offered) {
      var d :| d in offered && GroupOf(d) == GroupOf(c);
      var j :| 0 <= j < |offered| && offered[j] == d;
      assert all[j] == d;
    } else {
      forall j | 0 <= j < |offered| ensures GroupOf(all[j]) != GroupOf(c) {
        assert offered[j] in offered;
      }
    }
  }

  lemma PlacesStay(offered: seq<Candidate>, c: Candidate, cap: nat, at: seq<nat>)
    requires FirstPlaces(offered, cap, at) && (!NewGroup(offered + [c], |offered|) || |at| == cap)
    ensures FirstPlaces(offered + [c], cap, at)
  {
    forall i | 0 <= i < |offered| ensures NewGroup(offered + [c], i) <==> NewGroup(offered, i) {
      NewStays(offered, c, i);
    }
  }

  lemma PlacesGrow(offered: seq<Candidate>, c: Candidate, cap: nat, at: seq<nat>)
    requires FirstPlaces(offered, cap, at) && NewGroup(offered + [c], |offered|) && |at| < cap
    ensures FirstPlaces(offered + [c], cap, at + [|offered|])
  {
    var after := at + [|offered|];
    forall i | 0 <= i < |offered| ensures NewGroup(offered + [c], i) <==> NewGroup(offered, i) {
      NewStays(offered, c, i);
    }
    forall i | 0 <= i < |offered + [c]| && NewGroup(offered + [c], i) ensures i in after {
      if i < |offered| {
        assert i in at;
      } else {
        assert after[|at|] == i;
      }
    }
  }

  lemma {:induction false} AddsFirst(offered: seq<Candidate>, cap: nat) returns (at: seq<nat>)
    ensures FirstPlaces(offered, cap, at) && Picks(offered, at, AddAll(offered, cap))
  {
    if offered == [] {
      at := [];
    } else {
      var rest, c := offered[..|offered| - 1], offered[|offered| - 1];
      assert offered == rest + [c];
      at := AddsFirst(rest, cap);
      AllTaken(rest, cap);
      NewIsUnseen(rest, c);
      if GroupOf(c) in Groups(AddAll(rest, cap)) || |at| == cap {
        PlacesStay(rest, c, cap, at);
      } else {
        PlacesGrow(rest, c, cap, at);
        at := at + [|rest|];
      }
    }
  }

  // ----- the order in which places are filled

  // Required sources before allowed ones, then primary, comparison, background and no role.
  function Grade(b: Binding): nat {
    (match b.access case Required => 0 case Allowed => 4 case Excluded => 8)
    + match b.role case Some(Primary) => 0 case Some(Comparison) => 1 case Some(Background) => 2 case None => 3
  }

  predicate ByContent(a: Chunk, b: Chunk) {
    if a.version != b.version then StringLeq(a.version, b.version)
    else if a.position != b.position then a.position < b.position
    else StringLeq(a.hash, b.hash)
  }

  // Grade, then score, then version, place and content.
  predicate Precedes(a: Candidate, b: Candidate) {
    if Grade(a.binding) != Grade(b.binding) then Grade(a.binding) < Grade(b.binding)
    else if a.score != b.score then a.score > b.score
    else ByContent(a.chunk, b.chunk)
  }

  lemma ContentIsOrder()
    ensures Total(ByContent) && Transitive(ByContent)
  {
    forall a: Chunk, b: Chunk ensures ByContent(a, b) || ByContent(b, a) {
      StringTotal(a.version, b.version);
      StringTotal(a.hash, b.hash);
    }
    forall a: Chunk, b: Chunk, c: Chunk | ByContent(a, b) && ByContent(b, c) ensures ByContent(a, c) {
      ThreeTexts(a.version, b.version, c.version);
      ThreeTexts(a.hash, b.hash, c.hash);
    }
  }

  lemma PriorityIsPrecedes(a: Candidate, b: Candidate)
    ensures ByPriority(a, b) <==> Precedes(a, b)
  {
    ContentIs(a.chunk, b.chunk);
  }

  lemma ContentIs(a: Chunk, b: Chunk)
    ensures ByContent(a, b) <==> TextThen(a.version, b.version, PlaceThenHash(a, b))
  {
    StringTotal(a.version, b.version);
  }

  lemma PriorityIsOrder()
    ensures Total(ByPriority) && Transitive(ByPriority)
  {
    ContentIsOrder();
    forall a: Candidate, b: Candidate ensures ByPriority(a, b) || ByPriority(b, a) {
      PriorityIsPrecedes(a, b);
      PriorityIsPrecedes(b, a);
    }
    forall a: Candidate, b: Candidate, c: Candidate | ByPriority(a, b) && ByPriority(b, c) ensures ByPriority(a, c) {
      PriorityIsPrecedes(a, b);
      PriorityIsPrecedes(b, c);
      PriorityIsPrecedes(a, c);
    }
  }

  // ----- the candidates of each binding

  // Falling score, then place and identifier.
  predicate Ahead(a: Candidate, b: Candidate) {
    if a.score != b.score then a.score > b.score
    else if a.chunk.position != b.chunk.position then a.chunk.position < b.chunk.position
    else StringLeq(a.chunk.id, b.chunk.id)
  }

  // All candidates of a binding, the best first.
  ghost predicate BestFirst(candidates: seq<Candidate>, id: string, own: seq<Candidate>) {
    && Ordered(Ahead, own)
    && forall c :: multiset(own)[c] == if c.binding.id == id then multiset(candidates)[c] else 0
  }

  // Two are promised to a primary or comparison source, one to another required source, as far as it has them.
  ghost predicate PromisedOf(own: seq<Candidate>, top: seq<Candidate>) {
    && top <= own
    && (own != [] ==>
          var b := own[0].binding;
          if b.role == Some(Primary) || b.role == Some(Comparison) then |top| == if |own| < 2 then |own| else 2
          else if b.access == Required then |top| == 1
          else top == [])
  }

  ghost predicate BindingsOf(candidates: seq<Candidate>, ids: seq<string>) {
    && (forall i, j :: 0 <= i < j < |ids| ==> ids[i] != ids[j] && StringLeq(ids[i], ids[j]))
    && (forall id :: id in ids <==> exists c <- candidates :: c.binding.id == id)
  }

  function Flat(parts: seq<seq<Candidate>>): seq<Candidate> {
    if parts == [] then [] else Flat(parts[..|parts| - 1]) + parts[|parts| - 1]
  }

  // The promised candidates of all bindings, by the identifiers of the bindings.
  ghost predicate AllPromised(candidates: seq<Candidate>, ids: seq<string>, owns: seq<seq<Candidate>>,
                              tops: seq<seq<Candidate>>) {
    && BindingsOf(candidates, ids) && |owns| == |tops| == |ids|
    && forall k :: 0 <= k < |ids| ==> BestFirst(candidates, ids[k], owns[k]) && PromisedOf(owns[k], tops[k])
  }

  lemma {:induction false} OfBindingCounts(cs: seq<Candidate>, id: string, c: Candidate)
    ensures multiset(OfBinding(cs, id))[c] == if c.binding.id == id then multiset(cs)[c] else 0
  {
    if cs != [] {
      OfBindingCounts(cs[..|cs| - 1], id, c);
      assert cs == cs[..|cs| - 1] + [cs[|cs| - 1]];
    }
  }

  lemma {:induction false} OwnIsBestFirst(candidates: seq<Candidate>, sorted: seq<Candidate>, id: string)
    requires sorted == SortBy(ByBinding, candidates)
    ensures BestFirst(candidates, id, OfBinding(sorted, id))
  {
    var own := OfBinding(sorted, id);
    ByBindingIsOrder();
    SortOrdered(ByBinding, candidates);
    SortElements(ByBinding, candidates);
    OfBindingOrdered(sorted, id);
    OfBindingIsFilter(sorted, id);
    forall c: Candidate ensures multiset(own)[c] == if c.binding.id == id then multiset(candidates)[c] else 0 {
      OfBindingCounts(sorted, id, c);
    }
    forall i, j | 0 <= i < j < |own| ensures Ahead(own[i], own[j]) {
      assert own[i] in own && own[j] in own;
      assert ByBinding(own[i], own[j]);
    }
  }

  lemma TopIsPromised(own: seq<Candidate>)
    ensures PromisedOf(own, Top(own))
  {
  }

  lemma {:induction false} IdsOnce(cs: seq<Candidate>, id: string)
    ensures multiset(BindingIds(cs))[id] == if exists c <- cs :: c.binding.id == id then 1 else 0
  {
    if cs != [] {
      var rest, last := cs[..|cs| - 1], cs[|cs| - 1];
      IdsOnce(rest, id);
      IdsOnce(rest, last.binding.id);
      assert cs == rest + [last];
      assert id in BindingIds(rest) <==> id in multiset(BindingIds(rest));
      assert last.binding.id in BindingIds(rest) <==> last.binding.id in multiset(BindingIds(rest));
      assert (exists c <- cs :: c.binding.id == id)
        <==> (exists c <- rest :: c.binding.id == id) || last.binding.id == id;
    }
  }

  lemma {:induction false} IdsAreBindings(candidates: seq<Candidate>, sorted: seq<Candidate>, ids: seq<string>)
    requires sorted == SortBy(ByBinding, candidates) && ids == SortBy(StringLeq, BindingIds(sorted))
    ensures BindingsOf(candidates, ids)
  {
    StringsOrdered();
    SortLength(ByBinding, candidates);
    SortElements(StringLeq, BindingIds(sorted));
    SortOrdered(StringLeq, BindingIds(sorted));
    forall id ensures multiset(ids)[id] <= 1 && (id in ids <==> exists c <- candidates :: c.binding.id == id) {
      IdsOnce(sorted, id);
      assert id in ids <==> id in multiset(ids);
      assert (exists c <- sorted :: c.binding.id == id) <==> exists c <- candidates :: c.binding.id == id;
    }
    forall i, j | 0 <= i < j < |ids| ensures ids[i] != ids[j] {
      if ids[i] == ids[j] {
        TwiceCounts(ids, i, j);
      }
    }
  }

  lemma {:induction false} PromisedIsFlat(sorted: seq<Candidate>, ids: seq<string>, tops: seq<seq<Candidate>>)
    requires |tops| == |ids| && forall k :: 0 <= k < |ids| ==> tops[k] == Top(OfBinding(sorted, ids[k]))
    ensures Promised(sorted, ids) == Flat(tops)
  {
    if ids != [] {
      PromisedIsFlat(sorted, ids[..|ids| - 1], tops[..|ids| - 1]);
    }
  }

  /** A context pack is the first of each evidence group, as many as fit, out of this list: for every binding in the
      order of the identifiers its best two candidates if it is primary or for comparison, its best one if it is
      otherwise required; and then all candidates by access and role, score, version, place and content. */
  lemma SelectionMeans(candidates: seq<Candidate>, cap: nat)
    returns (ids: seq<string>, owns: seq<seq<Candidate>>, tops: seq<seq<Candidate>>, rest: seq<Candidate>, at: seq<nat>)
    ensures AllPromised(candidates, ids, owns, tops)
    ensures Ordered(Precedes, rest) && multiset(rest) == multiset(candidates)
    ensures FirstPlaces(Flat(tops) + rest, cap, at) && Picks(Flat(tops) + rest, at, Selection(candidates, cap))
  {
    var sorted := SortBy(ByBinding, candidates);
    ids := SortBy(StringLeq, BindingIds(sorted));
    owns := seq(|ids|, k requires 0 <= k < |ids| => OfBinding(sorted, ids[k]));
    tops := seq(|ids|, k requires 0 <= k < |ids| => Top(OfBinding(sorted, ids[k])));
    rest := SortBy(ByPriority, candidates);
    IdsAreBindings(candidates, sorted, ids);
    forall k | 0 <= k < |ids| ensures BestFirst(candidates, ids[k], owns[k]) && PromisedOf(owns[k], tops[k]) {
      OwnIsBestFirst(candidates, sorted, ids[k]);
      TopIsPromised(owns[k]);
    }
    PromisedIsFlat(sorted, ids, tops);
    RestPrecedes(candidates, rest);
    at := AddsFirst(Flat(tops) + rest, cap);
  }

  lemma {:induction false} RestPrecedes(candidates: seq<Candidate>, rest: seq<Candidate>)
    requires rest == SortBy(ByPriority, candidates)
    ensures Ordered(Precedes, rest) && multiset(rest) == multiset(candidates)
  {
    PriorityIsOrder();
    SortOrdered(ByPriority, candidates);
    SortElements(ByPriority, candidates);
    forall i, j | 0 <= i < j < |rest| ensures Precedes(rest[i], rest[j]) {
      assert ByPriority(rest[i], rest[j]);
      PriorityIsPrecedes(rest[i], rest[j]);
    }
  }

  lemma NotPicked(offered: seq<Candidate>, at: seq<nat>, selected: seq<Candidate>, i: nat)
    requires Picks(offered, at, selected) && i < |offered| && GroupOf(offered[i]) !in Groups(selected)
    ensures i !in at
  {
    forall m | 0 <= m < |at| ensures at[m] != i {
      assert selected[m] in selected;
    }
  }

  /** A candidate whose evidence is left out stands, in that priority, behind every one that was selected beyond what
      was promised. */
  lemma LeftOutAreLast(cap: nat, promised: seq<Candidate>, rest: seq<Candidate>, at: seq<nat>,
                       selected: seq<Candidate>, c: Candidate, k: nat)
    requires Ordered(Precedes, rest) && c in rest
    requires FirstPlaces(promised + rest, cap, at) && Picks(promised + rest, at, selected)
    requires GroupOf(c) !in Groups(selected)
    requires k < |at| && at[k] >= |promised|
    ensures |at| == cap && Precedes(selected[k], c)
  {
    var n :| 0 <= n < |rest| && rest[n] == c;
    var i := FirstOfGroup(promised + rest, |promised| + n);
    NotPicked(promised + rest, at, selected, i);
    assert at[k] < i;
    assert Precedes(rest[at[k] - |promised|], rest[n]);
  }

  lemma {:induction false} FirstOfGroup(offered: seq<Candidate>, n: nat) returns (i: nat)
    requires n < |offered|
    ensures i <= n && GroupOf(offered[i]) == GroupOf(offered[n]) && NewGroup(offered, i)
  {
    if NewGroup(offered, n) {
      i := n;
    } else {
      var j :| 0 <= j < n && GroupOf(offered[j]) == GroupOf(offered[n]);
      i := FirstOfGroup(offered, j);
    }
  }

  // ----- the ranking of one source

  // The chunk has a query term, and no earlier one with a query term is the same evidence.
  ghost predicate FirstHit(b: Binding, chunks: seq<Chunk>, i: nat)
    requires i < |chunks|
  {
    && chunks[i].hits > 0
    && forall j :: 0 <= j < i && chunks[j].hits > 0 ==>
         GroupOf(CandidateOf(b, chunks[j])) != GroupOf(CandidateOf(b, chunks[i]))
  }

  ghost predicate FromFirstHit(b: Binding, chunks: seq<Chunk>, c: Candidate) {
    exists i: nat :: i < |chunks| && FirstHit(b, chunks, i) && c == CandidateOf(b, chunks[i])
  }

  lemma HitsMore(b: Binding, chunks: seq<Chunk>, chunk: Chunk, c: Candidate)
    ensures FromFirstHit(b, chunks + [chunk], c)
            <==> FromFirstHit(b, chunks, c) || (c == CandidateOf(b, chunk) && FirstHit(b, chunks + [chunk], |chunks|))
  {
    var all := chunks + [chunk];
    forall i: nat | i < |chunks| ensures FirstHit(b, all, i) <==> FirstHit(b, chunks, i) {
      assert forall j :: 0 <= j <= i ==> all[j] == chunks[j];
    }
    if FromFirstHit(b, chunks, c) {
      var i: nat :| i < |chunks| && FirstHit(b, chunks, i) && c == CandidateOf(b, chunks[i]);
      assert FirstHit(b, all, i) && c == CandidateOf(b, all[i]);
    }
    if FromFirstHit(b, all, c) {
      var i: nat :| i < |all| && FirstHit(b, all, i) && c == CandidateOf(b, all[i]);
      if i < |chunks| {
        assert FirstHit(b, chunks, i) && c == CandidateOf(b, chunks[i]);
      }
    }
  }

  // A chunk with a query term is new exactly when its evidence is not among the matches of the earlier ones.
  lemma {:induction false} NewMatch(b: Binding, chunks: seq<Chunk>, chunk: Chunk)
    requires chunk.hits > 0
    ensures GroupOf(CandidateOf(b, chunk)) !in Groups(Matching(b, chunks)) <==> FirstHit(b, chunks + [chunk], |chunks|)
  {
    var all, g := chunks + [chunk], GroupOf(CandidateOf(b, chunk));
    MatchingGroups(b, chunks);
    MatchingFromChunks(b, chunks);
    if g in Groups(Matching(b, chunks)) {
      var d :| d in Matching(b, chunks) && GroupOf(d) == g;
      var j :| 0 <= j < |chunks| && chunks[j] == d.chunk;
      assert all[j] == d.chunk;
    } else {
      forall j | 0 <= j < |chunks| && all[j].hits > 0 ensures GroupOf(CandidateOf(b, all[j])) != g {
        assert chunks[j] in chunks;
      }
    }
  }

  lemma {:induction false} MatchingIsFirst(b: Binding, chunks: seq<Chunk>, c: Candidate)
    ensures c in Matching(b, chunks) <==> FromFirstHit(b, chunks, c)
  {
    if chunks != [] {
      var before, chunk := chunks[..|chunks| - 1], chunks[|chunks| - 1];
      assert chunks == before + [chunk];
      MatchingIsFirst(b, before, c);
      HitsMore(b, before, chunk, c);
      if chunk.hits > 0 {
        NewMatch(b, before, chunk);
      }
    }
  }

  // More hits, then an earlier place, version, position and identifier; all positions below one are the first place.
  predicate RanksBefore(a: Candidate, b: Candidate) {
    var p := if a.chunk.position > 0 then a.chunk.position else 0;
    var q := if b.chunk.position > 0 then b.chunk.position else 0;
    if a.hits != b.hits then a.hits > b.hits
    else if p != q then p < q
    else if a.chunk.version != b.chunk.version then StringLeq(a.chunk.version, b.chunk.version)
    else if a.chunk.position != b.chunk.position then a.chunk.position < b.chunk.position
    else StringLeq(a.chunk.id, b.chunk.id)
  }

  lemma ScoreRanks(b: Binding, c: Candidate, d: Candidate)
    requires c == CandidateOf(b, c.chunk) && d == CandidateOf(b, d.chunk) && ByScore(c, d)
    ensures RanksBefore(c, d)
  {
    ScoreIsLexicographic(c.hits, c.chunk.position, d.hits, d.chunk.position);
    ScoreIsLexicographic(d.hits, d.chunk.position, c.hits, c.chunk.position);
  }

  /** The ranking of a source holds, for every piece of evidence with a query term, its first chunk that has one, by
      falling hits, then by place, version, position and identifier. */
  lemma RankingMeans(b: Binding, chunks: seq<Chunk>)
    ensures forall c :: c in RankedChunks(b, chunks) <==> FromFirstHit(b, chunks, c)
    ensures |RankedChunks(b, chunks)| == |Groups(RankedChunks(b, chunks))|
    ensures Ordered(RanksBefore, RankedChunks(b, chunks))
  {
    var matching, ranked := Matching(b, chunks), RankedChunks(b, chunks);
    ByScoreIsOrder();
    SortOrdered(ByScore, matching);
    SortLength(ByScore, matching);
    MatchingGroups(b, chunks);
    MatchingFromChunks(b, chunks);
    DistinctGroups(matching);
    SameElementsSameGroups(matching, ranked);
    forall c ensures c in ranked <==> FromFirstHit(b, chunks, c) {
      MatchingIsFirst(b, chunks, c);
    }
    forall i, j | 0 <= i < j < |ranked| ensures RanksBefore(ranked[i], ranked[j]) {
      assert ranked[i] in matching && ranked[j] in matching;
      assert ByScore(ranked[i], ranked[j]);
      ScoreRanks(b, ranked[i], ranked[j]);
    }
  }
}
