/** Ranking the chunks of one source and choosing the evidence that goes into a context pack. */
module ContextSelection {
  import opened Options
  import opened Ordering
  import Reals

  datatype Access = Required | Allowed | Excluded

  datatype Role = Primary | Comparison | Background

  datatype Binding = Binding(id: string, access: Access, role: Option<Role>)

  // `hits` counts the query terms found in the text of the chunk.
  datatype Chunk = Chunk(id: string, version: string, position: int, hash: string, hits: nat)

  datatype Candidate = Candidate(binding: Binding, chunk: Chunk, score: real, hits: nat)

  // Chunks with the same version, position and content are one piece of evidence.
  datatype Group = Group(version: string, position: int, hash: string)

  function GroupOf(c: Candidate): Group {
    Group(c.chunk.version, c.chunk.position, c.chunk.hash)
  }

  function Groups(cs: seq<Candidate>): set<Group> {
    set c <- cs :: GroupOf(c)
  }

  // ----- ranking one source

  const RRF_K := 60

  function Place(position: int): (p: int)
    ensures p >= 1
  {
    if position + 1 > 1 then position + 1 else 1
  }

  function Score(hits: nat, position: int): real {
    hits as real + 1.0 / (RRF_K + Place(position)) as real
  }

  function CandidateOf(b: Binding, chunk: Chunk): Candidate {
    Candidate(b, chunk, Score(chunk.hits, chunk.position), chunk.hits)
  }

  // The chunks with a query term, the first of each group.
  function Matching(b: Binding, chunks: seq<Chunk>): seq<Candidate> {
    if chunks == [] then []
    else
      var before := Matching(b, chunks[..|chunks| - 1]);
      var c := CandidateOf(b, chunks[|chunks| - 1]);
      if c.hits == 0 || GroupOf(c) in Groups(before) then before else before + [c]
  }

  // Orders by text and then by whatever decides among equal texts.
  predicate TextThen(a: string, b: string, rest: bool) {
    StringLeq(a, b) && (a == b ==> rest)
  }

  predicate PlaceThenId(a: Chunk, b: Chunk) {
    a.position < b.position || (a.position == b.position && StringLeq(a.id, b.id))
  }

  predicate ByScore(a: Candidate, b: Candidate) {
    || a.score > b.score
    || (a.score == b.score && TextThen(a.chunk.version, b.chunk.version, PlaceThenId(a.chunk, b.chunk)))
  }

  function RankedChunks(b: Binding, chunks: seq<Chunk>): seq<Candidate> {
    SortBy(ByScore, Matching(b, chunks))
  }

  method RankSourceChunks(b: Binding, chunks: seq<Chunk>) returns (ranked: seq<Candidate>)
    ensures ranked == RankedChunks(b, chunks)
  {
    var candidates: seq<Candidate> := [];
    var seen: set<Group> := {};
    for i := 0 to |chunks|
      invariant candidates == Matching(b, chunks[..i]) && seen == Groups(candidates)
    {
      assert chunks[..i + 1][..i] == chunks[..i];
      var c := CandidateOf(b, chunks[i]);
      if c.hits > 0 && GroupOf(c) !in seen {
        seen := seen + {GroupOf(c)};
        GroupsOfMore(candidates, c);
        candidates := candidates + [c];
      }
    }
    assert chunks[..|chunks|] == chunks;
    ranked := SortBy(ByScore, candidates);
  }

  lemma GroupsOfMore(cs: seq<Candidate>, c: Candidate)
    ensures Groups(cs + [c]) == Groups(cs) + {GroupOf(c)}
  {
    assert forall x :: x in cs + [c] <==> x in cs || x == c;
  }

  lemma ByScoreIsOrder()
    ensures Total(ByScore) && Transitive(ByScore)
  {
    forall a: Candidate, b: Candidate ensures ByScore(a, b) || ByScore(b, a) {
      StringTotal(a.chunk.version, b.chunk.version);
      StringTotal(a.chunk.id, b.chunk.id);
    }
    forall a: Candidate, b: Candidate, c: Candidate | ByScore(a, b) && ByScore(b, c) ensures ByScore(a, c) {
      if a.score == c.score {
        ThreeTexts(a.chunk.version, b.chunk.version, c.chunk.version);
        ThreeTexts(a.chunk.id, b.chunk.id, c.chunk.id);
      }
    }
  }

  lemma {:induction false} ThreeTexts(a: string, b: string, c: string)
    ensures StringLeq(a, b) && StringLeq(b, c) ==> StringLeq(a, c)
    ensures StringLeq(a, b) && StringLeq(b, c) && a == c ==> a == b
  {
    if StringLeq(a, b) && StringLeq(b, c) {
      StringTransitive(a, b, c);
      if a == c {
        StringAntisymmetric(a, b);
      }
    }
  }

  // ----- scores compare as (more hits, earlier place)

  lemma ScoreIsLexicographic(h: nat, p: int, h': nat, p': int)
    ensures Score(h, p) > Score(h', p') <==> h > h' || (h == h' && Place(p) < Place(p'))
  {
    Reals.Reciprocals((RRF_K + Place(p)) as real, (RRF_K + Place(p')) as real);
  }

  // More hits first, then the earlier chunk, then the identifier.
  predicate HitsThenPlace(a: Candidate, b: Candidate) {
    a.hits > b.hits || (a.hits == b.hits && PlaceThenId(a.chunk, b.chunk))
  }

  lemma {:induction false} MatchingFromChunks(b: Binding, chunks: seq<Chunk>)
    ensures forall c <- Matching(b, chunks) :: c.chunk in chunks && c == CandidateOf(b, c.chunk) && c.hits > 0
  {
    if chunks != [] {
      MatchingFromChunks(b, chunks[..|chunks| - 1]);
    }
  }

  // Within one version the ranking is by hits, then by place, then by identifier.
  lemma RankIsLexicographic(b: Binding, chunks: seq<Chunk>, version: string)
    requires forall chunk <- chunks :: chunk.version == version
    ensures Ordered(HitsThenPlace, RankedChunks(b, chunks))
  {
    var ranked := RankedChunks(b, chunks);
    ByScoreIsOrder();
    SortOrdered(ByScore, Matching(b, chunks));
    SortLength(ByScore, Matching(b, chunks));
    MatchingFromChunks(b, chunks);
    forall i, j | 0 <= i < j < |ranked| ensures HitsThenPlace(ranked[i], ranked[j]) {
      assert ranked[i] in Matching(b, chunks) && ranked[j] in Matching(b, chunks);
      ScoreIsLexicographic(ranked[i].hits, ranked[i].chunk.position, ranked[j].hits, ranked[j].chunk.position);
      ScoreIsLexicographic(ranked[j].hits, ranked[j].chunk.position, ranked[i].hits, ranked[i].chunk.position);
      assert ByScore(ranked[i], ranked[j]);
    }
  }

  lemma {:induction false} MatchingGroups(b: Binding, chunks: seq<Chunk>)
    ensures OneOfEachGroup(Matching(b, chunks))
    ensures forall chunk <- chunks :: chunk.hits > 0 ==> GroupOf(CandidateOf(b, chunk)) in Groups(Matching(b, chunks))
  {
    if chunks != [] {
      var n := |chunks| - 1;
      MatchingGroups(b, chunks[..n]);
      var before := Matching(b, chunks[..n]);
      GroupsOfMore(before, CandidateOf(b, chunks[n]));
      assert forall chunk :: chunk in chunks <==> chunk in chunks[..n] || chunk == chunks[n];
      forall i | 0 <= i < |before| ensures GroupOf(before[i]) in Groups(before) {
        assert before[i] in before;
      }
    }
  }

  ghost predicate OneOfEachGroup(cs: seq<Candidate>) {
    forall i, j :: 0 <= i < j < |cs| ==> GroupOf(cs[i]) != GroupOf(cs[j])
  }

  // ----- choosing

  function AccessPriority(access: Access): nat {
    match access case Required => 0 case Allowed => 1 case Excluded => 2
  }

  function RolePriority(role: Option<Role>): nat {
    match role case Some(Primary) => 0 case Some(Comparison) => 1 case Some(Background) => 2 case None => 3
  }

  predicate ByBinding(a: Candidate, b: Candidate) {
    TextThen(a.binding.id, b.binding.id, a.score > b.score || (a.score == b.score && PlaceThenId(a.chunk, b.chunk)))
  }

  predicate PlaceThenHash(a: Chunk, b: Chunk) {
    a.position < b.position || (a.position == b.position && StringLeq(a.hash, b.hash))
  }

  predicate ByPriority(a: Candidate, b: Candidate) {
    var x, y := AccessPriority(a.binding.access), AccessPriority(b.binding.access);
    var p, q := RolePriority(a.binding.role), RolePriority(b.binding.role);
    x < y || (x == y && (p < q || (p == q && (a.score > b.score
      || (a.score == b.score && TextThen(a.chunk.version, b.chunk.version, PlaceThenHash(a.chunk, b.chunk)))))))
  }

  // How many candidates a binding is promised.
  function Minimum(b: Binding): nat {
    if b.role in {Some(Primary), Some(Comparison)} then 2 else if b.access == Required then 1 else 0
  }

  function OfBinding(cs: seq<Candidate>, id: string): seq<Candidate> {
    if cs == [] then []
    else
      var rest := OfBinding(cs[..|cs| - 1], id);
      if cs[|cs| - 1].binding.id == id then rest + [cs[|cs| - 1]] else rest
  }

  // The binding identifiers in the order they first occur.
  function BindingIds(cs: seq<Candidate>): seq<string> {
    if cs == [] then []
    else
      var rest := BindingIds(cs[..|cs| - 1]);
      if cs[|cs| - 1].binding.id in rest then rest else rest + [cs[|cs| - 1].binding.id]
  }

  function Top(cs: seq<Candidate>): seq<Candidate> {
    if cs == [] then [] else if Minimum(cs[0].binding) <= |cs| then cs[..Minimum(cs[0].binding)] else cs
  }

  // The promised candidates of the listed bindings.
  function Promised(sorted: seq<Candidate>, ids: seq<string>): seq<Candidate> {
    if ids == [] then [] else Promised(sorted, ids[..|ids| - 1]) + Top(OfBinding(sorted, ids[|ids| - 1]))
  }

  function Add(selected: seq<Candidate>, c: Candidate, cap: nat): seq<Candidate> {
    if |selected| >= cap || GroupOf(c) in Groups(selected) then selected else selected + [c]
  }

  function AddAll(cs: seq<Candidate>, cap: nat): seq<Candidate> {
    if cs == [] then [] else Add(AddAll(cs[..|cs| - 1], cap), cs[|cs| - 1], cap)
  }

  function Cap(groups: nat, chunks: nat): nat {
    if groups <= chunks then groups else chunks
  }

  // What is offered to the context pack, in order: the promised candidates, then all of them by priority.
  function Offered(candidates: seq<Candidate>): seq<Candidate> {
    var sorted := SortBy(ByBinding, candidates);
    Promised(sorted, SortBy(StringLeq, BindingIds(sorted))) + SortBy(ByPriority, candidates)
  }

  function Selection(candidates: seq<Candidate>, cap: nat): seq<Candidate> {
    AddAll(Offered(candidates), cap)
  }

  // ----- the size of the result

  lemma {:induction false} DistinctGroups(cs: seq<Candidate>)
    requires OneOfEachGroup(cs)
    ensures |Groups(cs)| == |cs|
  {
    if cs == [] {
      assert Groups(cs) == {};
    } else {
      var rest, c := cs[..|cs| - 1], cs[|cs| - 1];
      DistinctGroups(rest);
      assert cs == rest + [c];
      GroupsOfMore(rest, c);
    }
  }

  // Everything is taken until the cap is reached; then at least that many groups were offered.
  ghost predicate Taken(selected: seq<Candidate>, offered: seq<Candidate>, cap: nat) {
    && OneOfEachGroup(selected) && |selected| <= cap && Groups(selected) <= Groups(offered)
    && (|selected| < cap ==> Groups(selected) == Groups(offered))
    && forall c <- selected :: c in offered
  }

  lemma TakenStep(selected: seq<Candidate>, offered: seq<Candidate>, c: Candidate, cap: nat)
    requires Taken(selected, offered, cap)
    ensures Taken(Add(selected, c, cap), offered + [c], cap)
  {
    GroupsOfMore(offered, c);
    GroupsOfMore(selected, c);
    forall i | 0 <= i < |selected| ensures GroupOf(selected[i]) in Groups(selected) {
      assert selected[i] in selected;
    }
  }

  lemma {:induction false} AllTaken(offered: seq<Candidate>, cap: nat)
    ensures Taken(AddAll(offered, cap), offered, cap)
  {
    if offered == [] {
      assert Groups(offered) == {};
    } else {
      var rest := offered[..|offered| - 1];
      AllTaken(rest, cap);
      TakenStep(AddAll(rest, cap), rest, offered[|offered| - 1], cap);
      assert offered == rest + [offered[|offered| - 1]];
    }
  }

  lemma {:induction false} OfBindingIsFilter(cs: seq<Candidate>, id: string)
    ensures forall c :: c in OfBinding(cs, id) <==> c in cs && c.binding.id == id
  {
    if cs != [] {
      OfBindingIsFilter(cs[..|cs| - 1], id);
      assert cs == cs[..|cs| - 1] + [cs[|cs| - 1]];
    }
  }

  lemma {:induction false} PromisedAreCandidates(sorted: seq<Candidate>, ids: seq<string>)
    ensures forall c <- Promised(sorted, ids) :: c in sorted
  {
    if ids != [] {
      PromisedAreCandidates(sorted, ids[..|ids| - 1]);
      OfBindingIsFilter(sorted, ids[|ids| - 1]);
    }
  }

  lemma SameElementsSameGroups(a: seq<Candidate>, b: seq<Candidate>)
    requires forall c :: c in a <==> c in b
    ensures Groups(a) == Groups(b)
  {
  }

  lemma OfferedGroups(candidates: seq<Candidate>)
    ensures Groups(Offered(candidates)) == Groups(candidates)
    ensures forall c <- Offered(candidates) :: c in candidates
  {
    var sorted := SortBy(ByBinding, candidates);
    var promised := Promised(sorted, SortBy(StringLeq, BindingIds(sorted)));
    SortLength(ByBinding, candidates);
    SortLength(ByPriority, candidates);
    PromisedAreCandidates(sorted, SortBy(StringLeq, BindingIds(sorted)));
    SameElementsSameGroups(SortBy(ByPriority, candidates), candidates);
    assert Groups(promised) <= Groups(candidates);
  }

  // A context pack has one candidate of each group, and as many as the cap and the number of groups allow.
  lemma SelectionSize(candidates: seq<Candidate>, cap: nat)
    ensures OneOfEachGroup(Selection(candidates, cap))
    ensures |Selection(candidates, cap)| == Cap(cap, |Groups(candidates)|)
    ensures forall c <- Selection(candidates, cap) :: c in candidates
  {
    var selected := Selection(candidates, cap);
    AllTaken(Offered(candidates), cap);
    OfferedGroups(candidates);
    DistinctGroups(selected);
    SubsetSize(Groups(selected), Groups(candidates));
  }

  lemma {:induction false} SubsetSize(a: set<Group>, b: set<Group>)
    requires a <= b
    ensures |a| <= |b|
  {
    if a != {} {
      var g :| g in a;
      SubsetSize(a - {g}, b - {g});
    }
  }

  // ----- what bindings are promised

  lemma {:induction false} AddAllPrefix(first: seq<Candidate>, more: seq<Candidate>, cap: nat)
    ensures AddAll(first, cap) <= AddAll(first + more, cap)
  {
    if more == [] {
      assert first + more == first;
    } else {
      var n := |more| - 1;
      AddAllPrefix(first, more[..n], cap);
      assert (first + more)[..|first + more| - 1] == first + more[..n];
    }
  }

  lemma {:induction false} RoomForAll(offered: seq<Candidate>, cap: nat)
    requires |offered| <= cap
    ensures Groups(AddAll(offered, cap)) == Groups(offered) && |AddAll(offered, cap)| <= |offered|
  {
    if offered == [] {
      assert Groups(offered) == {};
    } else {
      var rest, c := offered[..|offered| - 1], offered[|offered| - 1];
      RoomForAll(rest, cap);
      GroupsOfMore(AddAll(rest, cap), c);
      GroupsOfMore(rest, c);
      assert offered == rest + [c];
    }
  }

  lemma {:induction false} PromisedHolds(sorted: seq<Candidate>, ids: seq<string>, id: string)
    requires id in ids
    ensures forall c <- Top(OfBinding(sorted, id)) :: c in Promised(sorted, ids)
  {
    var n := |ids| - 1;
    if ids[n] != id {
      PromisedHolds(sorted, ids[..n], id);
    }
  }

  lemma {:induction false} BindingIdsAreAll(cs: seq<Candidate>)
    ensures forall c <- cs :: c.binding.id in BindingIds(cs)
  {
    if cs != [] {
      BindingIdsAreAll(cs[..|cs| - 1]);
      assert cs == cs[..|cs| - 1] + [cs[|cs| - 1]];
    }
  }

  // If the promised candidates fit under the cap, every binding has the evidence of its best ones.
  lemma {:induction false} PromisesAreKept(candidates: seq<Candidate>, cap: nat, c: Candidate)
    requires c in candidates && c in Top(OfBinding(SortBy(ByBinding, candidates), c.binding.id))
    requires |Promised(SortBy(ByBinding, candidates),
                       SortBy(StringLeq, BindingIds(SortBy(ByBinding, candidates))))| <= cap
    ensures GroupOf(c) in Groups(Selection(candidates, cap))
  {
    var sorted := SortBy(ByBinding, candidates);
    var ids := SortBy(StringLeq, BindingIds(sorted));
    var promised := Promised(sorted, ids);
    SortLength(ByBinding, candidates);
    SortLength(StringLeq, BindingIds(sorted));
    BindingIdsAreAll(sorted);
    PromisedHolds(sorted, ids, c.binding.id);
    RoomForAll(promised, cap);
    AddAllPrefix(promised, SortBy(ByPriority, candidates), cap);
    PrefixGroups(AddAll(promised, cap), Selection(candidates, cap));
  }

  lemma PrefixGroups(a: seq<Candidate>, b: seq<Candidate>)
    requires a <= b
    ensures Groups(a) <= Groups(b)
  {
    forall c | c in a ensures c in b {
      var i :| 0 <= i < |a| && a[i] == c;
      assert b[i] == c;
    }
  }

  lemma ByBindingIsOrder()
    ensures Total(ByBinding) && Transitive(ByBinding)
  {
    forall a: Candidate, b: Candidate ensures ByBinding(a, b) || ByBinding(b, a) {
      StringTotal(a.binding.id, b.binding.id);
      StringTotal(a.chunk.id, b.chunk.id);
    }
    forall a: Candidate, b: Candidate, c: Candidate | ByBinding(a, b) && ByBinding(b, c) ensures ByBinding(a, c) {
      ThreeTexts(a.binding.id, b.binding.id, c.binding.id);
      ThreeTexts(a.chunk.id, b.chunk.id, c.chunk.id);
    }
  }

  lemma {:induction false} OfBindingOrdered(sorted: seq<Candidate>, id: string)
    requires Ordered(ByBinding, sorted)
    ensures Ordered(ByBinding, OfBinding(sorted, id))
  {
    if sorted != [] {
      var rest := OfBinding(sorted[..|sorted| - 1], id);
      OfBindingOrdered(sorted[..|sorted| - 1], id);
      OfBindingIsFilter(sorted[..|sorted| - 1], id);
      forall i | 0 <= i < |rest| ensures ByBinding(rest[i], sorted[|sorted| - 1]) {
        assert rest[i] in sorted[..|sorted| - 1];
      }
    }
  }

  // What a binding is promised are its best candidates: all its candidates by falling score, from the top.
  lemma {:induction false} TopIsBest(candidates: seq<Candidate>, id: string)
    ensures var own := OfBinding(SortBy(ByBinding, candidates), id);
            && (forall c :: c in own <==> c in candidates && c.binding.id == id)
            && (forall i, j :: 0 <= i < j < |own| ==> own[i].score >= own[j].score)
            && Top(own) <= own && (own != [] ==> |Top(own)| == Cap(Minimum(own[0].binding), |own|))
  {
    var sorted := SortBy(ByBinding, candidates);
    var own := OfBinding(sorted, id);
    ByBindingIsOrder();
    SortOrdered(ByBinding, candidates);
    SortLength(ByBinding, candidates);
    OfBindingIsFilter(sorted, id);
    OfBindingOrdered(sorted, id);
    forall i, j | 0 <= i < j < |own| ensures own[i].score >= own[j].score {
      assert own[i] in own && own[j] in own;
      assert ByBinding(own[i], own[j]);
    }
  }

  // ----- the selector

  method GroupByBinding(sorted: seq<Candidate>) returns (ids: seq<string>, byBinding: map<string, seq<Candidate>>)
    ensures ids == BindingIds(sorted)
    ensures forall id <- ids :: id in byBinding && byBinding[id] == OfBinding(sorted, id)
  {
    byBinding := map[];
    ids := [];
    for i := 0 to |sorted|
      invariant ids == BindingIds(sorted[..i])
      invariant forall id :: id in byBinding <==> id in ids
      invariant forall id <- byBinding :: byBinding[id] == OfBinding(sorted[..i], id)
      invariant forall id :: id !in byBinding ==> OfBinding(sorted[..i], id) == []
    {
      assert sorted[..i + 1][..i] == sorted[..i];
      var id := sorted[i].binding.id;
      if id !in byBinding {
        byBinding, ids := byBinding[id := []], ids + [id];
      }
      byBinding := byBinding[id := byBinding[id] + [sorted[i]]];
    }
    assert sorted[..|sorted|] == sorted;
  }

  /** The program selects these candidates, and as many as its two limits and the groups allow. */
  method SelectContextCandidates(candidates: seq<Candidate>, maxGroups: nat, maxChunks: nat)
    returns (selected: seq<Candidate>)
    ensures |selected| == Cap(Cap(maxGroups, maxChunks), |Groups(candidates)|)
    ensures selected == Selection(candidates, Cap(maxGroups, maxChunks))
  {
    var cap := if maxGroups <= maxChunks then maxGroups else maxChunks;
    selected := SelectWithin(candidates, cap);
    SelectionSize(candidates, cap);
  }

  method SelectWithin(candidates: seq<Candidate>, cap: nat) returns (selected: seq<Candidate>)
    ensures selected == Selection(candidates, cap)
  {
    var sorted := SortBy(ByBinding, candidates);
    var ids, byBinding := GroupByBinding(sorted);
    selected := [];
    var order := SortBy(StringLeq, ids);
    SortLength(StringLeq, ids);
    for i := 0 to |order|
      invariant selected == AddAll(Promised(sorted, order[..i]), cap)
    {
      assert order[i] in order;
      assert order[..i + 1][..i] == order[..i];
      var own := byBinding[order[i]];
      selected := OfferAll(selected, Promised(sorted, order[..i]), Top(own), cap);
    }
    assert order[..|order|] == order;
    selected := OfferAll(selected, Promised(sorted, order), SortBy(ByPriority, candidates), cap);
  }

  // Offers more candidates to a context pack that was offered some already.
  method OfferAll(before: seq<Candidate>, ghost offered: seq<Candidate>, more: seq<Candidate>, cap: nat)
    returns (selected: seq<Candidate>)
    requires before == AddAll(offered, cap)
    ensures selected == AddAll(offered + more, cap)
  {
    selected := before;
    var groups := Groups(selected);
    assert offered + [] == offered;
    for i := 0 to |more|
      invariant selected == AddAll(offered + more[..i], cap) && groups == Groups(selected)
    {
      assert (offered + more[..i + 1])[..|offered| + i] == offered + more[..i];
      if |selected| < cap && GroupOf(more[i]) !in groups {
        GroupsOfMore(selected, more[i]);
        selected, groups := selected + [more[i]], groups + {GroupOf(more[i])};
      }
    }
    assert more[..|more|] == more;
  }
}
