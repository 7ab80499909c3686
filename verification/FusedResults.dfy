/** What a fused result list is, said of the places at which the candidates of the channels stand. */
module FusedResults {
  import opened Options
  import opened Ordering
  import opened Places
  import opened Fusion
  import Text

  // ----- which candidates a filter keeps

  // Metadata hides the fields of the candidate and its citation; a key that is nowhere has the empty value.
  function Value(c: Candidate, key: string): string {
    if key in c.metadata then c.metadata[key]
    else if key == "knowledge_item_id" then c.item
    else if c.citation.None? then ""
    else if key == "source_id" then c.citation.value.source
    else if key == "asset_id" then c.citation.value.asset
    else if key == "file_path" then c.citation.value.path
    else ""
  }

  ghost predicate Fits(c: Candidate, filters: Filters) {
    forall key <- filters :: Value(c, key) == filters[key]
  }

  // The candidates at the places `at`, which are those that fit, in order.
  ghost predicate KeepsAt(cs: seq<Candidate>, filters: Filters, kept: seq<Candidate>, at: seq<nat>) {
    && |at| == |kept| && Rising(at)
    && (forall i :: 0 <= i < |at| ==> at[i] < |cs| && kept[i] == cs[at[i]])
    && (forall p :: 0 <= p < |cs| ==> (p in at <==> Fits(cs[p], filters)))
  }

  ghost predicate Keeps(cs: seq<Candidate>, filters: Filters, kept: seq<Candidate>) {
    exists at :: KeepsAt(cs, filters, kept, at)
  }

  lemma MatchesIsFits(c: Candidate, filters: Filters)
    ensures Matches(c, filters) <==> Fits(c, filters)
  {
    forall key | key in filters ensures ValueOr(FilterValues(c), key) == Value(c, key) {
    }
  }

  lemma {:induction false} FilteredKeeps(cs: seq<Candidate>, filters: Filters) returns (at: seq<nat>)
    ensures KeepsAt(cs, filters, Filtered(cs, filters), at)
  {
    if cs == [] {
      at := [];
    } else {
      var n := |cs| - 1;
      at := FilteredKeeps(cs[..n], filters);
      MatchesIsFits(cs[n], filters);
      KeepsMore(cs[..n], cs[n], filters, Filtered(cs[..n], filters), at);
      assert cs == cs[..n] + [cs[n]];
      if Matches(cs[n], filters) {
        at := at + [n];
      }
    }
  }

  lemma KeepsMore(cs: seq<Candidate>, c: Candidate, filters: Filters, kept: seq<Candidate>, at: seq<nat>)
    requires KeepsAt(cs, filters, kept, at)
    ensures Fits(c, filters) ==> KeepsAt(cs + [c], filters, kept + [c], at + [|cs|])
    ensures !Fits(c, filters) ==> KeepsAt(cs + [c], filters, kept, at)
  {
    var all, after := cs + [c], at + [|cs|];
    assert after[|at|] == |cs|;
    forall p | 0 <= p < |cs| ensures p in after <==> Fits(all[p], filters) {
      assert all[p] == cs[p];
    }
  }

  // ----- the places at which candidates are found

  // Place `rank` of a channel, counted from one.
  datatype Hit = Hit(channel: string, rank: nat, found: Candidate)

  function ChannelHits(name: string, cs: seq<Candidate>): seq<Hit> {
    seq(|cs|, i requires 0 <= i < |cs| => Hit(name, i + 1, cs[i]))
  }

  // All places, channel by channel; channels go by their stripped names.
  function AllHits(channels: seq<Channel>, kept: seq<seq<Candidate>>): seq<Hit>
    requires |kept| == |channels|
  {
    if channels == [] then []
    else
      var n := |channels| - 1;
      AllHits(channels[..n], kept[..n]) + ChannelHits(Text.Strip(channels[n].name), kept[n])
  }

  function OfId(hits: seq<Hit>, id: string): seq<Hit> {
    if hits == [] then []
    else
      var rest := OfId(hits[..|hits| - 1], id);
      if hits[|hits| - 1].found.id == id then rest + [hits[|hits| - 1]] else rest
  }

  // 1 / (max(1, k) + rank), summed over the places.
  function Total(hits: seq<Hit>, k: int): real {
    if hits == [] then 0.0
    else Total(hits[..|hits| - 1], k) + 1.0 / ((if k < 1 then 1 else k) + hits[|hits| - 1].rank) as real
  }

  // The smallest rank.
  function Best(hits: seq<Hit>): (r: nat)
    requires hits != []
    ensures (exists n :: 0 <= n < |hits| && hits[n].rank == r) && forall n :: 0 <= n < |hits| ==> r <= hits[n].rank
  {
    var last := hits[|hits| - 1].rank;
    if |hits| == 1 then last
    else
      var before := Best(hits[..|hits| - 1]);
      if before <= last then before else last
  }

  // ----- what a row of the result shows

  // The best rank in each channel.
  ghost predicate RanksShow(ranks: map<string, nat>, hits: seq<Hit>) {
    && (forall ch <- ranks :: exists n :: 0 <= n < |hits| && hits[n].channel == ch && hits[n].rank == ranks[ch])
    && (forall n :: 0 <= n < |hits| ==> hits[n].channel in ranks && ranks[hits[n].channel] <= hits[n].rank)
  }

  ghost predicate LastIn(hits: seq<Hit>, n: nat)
    requires n < |hits|
  {
    forall m :: n < m < |hits| ==> hits[m].channel != hits[n].channel
  }

  // The score at the last place in each channel.
  ghost predicate ScoresShow(scores: map<string, real>, hits: seq<Hit>) {
    && (forall ch <- scores :: exists n :: 0 <= n < |hits| && hits[n].channel == ch)
    && (forall n :: 0 <= n < |hits| ==>
          hits[n].channel in scores && (LastIn(hits, n) ==> scores[hits[n].channel] == hits[n].found.score))
  }

  // The first citation and the first metadata there are.
  ghost predicate CitationShows(citation: Option<Citation>, hits: seq<Hit>) {
    if citation.None? then forall n :: 0 <= n < |hits| ==> hits[n].found.citation.None?
    else exists n :: 0 <= n < |hits| && hits[n].found.citation == citation
                     && forall m :: 0 <= m < n ==> hits[m].found.citation.None?
  }

  ghost predicate MetadataShows(metadata: map<string, string>, hits: seq<Hit>) {
    if metadata == map[] then forall n :: 0 <= n < |hits| ==> hits[n].found.metadata == map[]
    else exists n :: 0 <= n < |hits| && hits[n].found.metadata == metadata
                     && forall m :: 0 <= m < n ==> hits[m].found.metadata == map[]
  }

  ghost predicate RowShows(e: Evidence, id: string, hits: seq<Hit>, k: int) {
    && hits != [] && e.id == id && e.item == hits[0].found.item && e.score == hits[0].found.score
    && e.fused == Total(hits, k) && RanksShow(e.ranks, hits) && ScoresShow(e.scores, hits)
    && CitationShows(e.citation, hits) && MetadataShows(e.metadata, hits)
  }

  lemma RanksMore(ranks: map<string, nat>, hits: seq<Hit>, h: Hit)
    requires RanksShow(ranks, hits)
    ensures RanksShow(ranks[h.channel := RankOr(ranks, h.channel, h.rank)], hits + [h])
  {
    var all, after := hits + [h], ranks[h.channel := RankOr(ranks, h.channel, h.rank)];
    assert all[|hits|] == h;
    forall ch | ch in after ensures exists n :: 0 <= n < |all| && all[n].channel == ch && all[n].rank == after[ch] {
      if ch in ranks && after[ch] == ranks[ch] {
        var n :| 0 <= n < |hits| && hits[n].channel == ch && hits[n].rank == ranks[ch];
        assert all[n] == hits[n];
      }
    }
  }

  lemma ScoresMore(scores: map<string, real>, hits: seq<Hit>, h: Hit)
    requires ScoresShow(scores, hits)
    ensures ScoresShow(scores[h.channel := h.found.score], hits + [h])
  {
    var all, after := hits + [h], scores[h.channel := h.found.score];
    assert all[|hits|] == h;
    forall ch | ch in after ensures exists n :: 0 <= n < |all| && all[n].channel == ch {
      if ch != h.channel {
        var n :| 0 <= n < |hits| && hits[n].channel == ch;
        assert all[n] == hits[n];
      }
    }
    forall n | 0 <= n < |hits|
      ensures all[n].channel in after && (LastIn(all, n) ==> after[all[n].channel] == all[n].found.score)
    {
      assert all[n] == hits[n];
      if LastIn(all, n) {
        assert all[|hits|].channel != all[n].channel;
        assert forall m :: n < m < |hits| ==> all[m] == hits[m];
        assert LastIn(hits, n);
      }
    }
  }

  lemma CitationMore(citation: Option<Citation>, hits: seq<Hit>, h: Hit)
    requires CitationShows(citation, hits)
    ensures CitationShows(if citation.None? then h.found.citation else citation, hits + [h])
  {
    var all := hits + [h];
    assert all[|hits|] == h;
    if citation.Some? {
      var n :| 0 <= n < |hits| && hits[n].found.citation == citation
        && forall m :: 0 <= m < n ==> hits[m].found.citation.None?;
      assert all[n] == hits[n];
    }
  }

  lemma MetadataMore(metadata: map<string, string>, hits: seq<Hit>, h: Hit)
    requires MetadataShows(metadata, hits)
    ensures MetadataShows(if metadata == map[] then h.found.metadata else metadata, hits + [h])
  {
    var all := hits + [h];
    assert all[|hits|] == h;
    if metadata != map[] {
      var n :| 0 <= n < |hits| && hits[n].found.metadata == metadata
        && forall m :: 0 <= m < n ==> hits[m].found.metadata == map[];
      assert all[n] == hits[n];
    }
  }

  // What a merge makes of a row with one more place.
  function RowAfter(e: Evidence, h: Hit, k: int): Evidence {
    Improved(e, h.channel, h.rank, h.found, k)
  }

  type Property = (Evidence, seq<Hit>) -> bool

  // The property holds of a new row at its first place, and of a row at one more place if it did before.
  ghost predicate Builds(holds: Property, k: int) {
    && (forall h: Hit :: holds(RowAfter(Fresh(h.found), h, k), [h]))
    && (forall e: Evidence, hits: seq<Hit>, h: Hit ::
          holds(e, hits) && hits != [] ==> holds(RowAfter(e, h, k), hits + [h]))
  }

  ghost predicate AllHave(m: Merged, hits: seq<Hit>, holds: Property) {
    && (forall id :: id in m.rows <==> OfId(hits, id) != [])
    && (forall id <- m.rows :: holds(m.rows[id], OfId(hits, id)))
  }

  lemma {:induction false} OfIdMore(hits: seq<Hit>, h: Hit, id: string)
    ensures OfId(hits + [h], id) == if h.found.id == id then OfId(hits, id) + [h] else OfId(hits, id)
  {
    assert (hits + [h])[..|hits|] == hits;
  }

  lemma HaveOne(m: Merged, hits: seq<Hit>, h: Hit, k: int, holds: Property)
    requires AllHave(m, hits, holds) && Builds(holds, k)
    ensures AllHave(MergeOne(m, h.channel, h.rank, h.found, k), hits + [h], holds)
  {
    var after := MergeOne(m, h.channel, h.rank, h.found, k);
    assert [] + [h] == [h];
    forall id ensures id in after.rows <==> OfId(hits + [h], id) != [] {
      OfIdMore(hits, h, id);
    }
    forall id | id in after.rows ensures holds(after.rows[id], OfId(hits + [h], id)) {
      OfIdMore(hits, h, id);
      if id == h.found.id {
        var e := if id in m.rows then m.rows[id] else Fresh(h.found);
        assert after.rows[id] == RowAfter(e, h, k);
      }
    }
  }

  lemma HitsMore(hits: seq<Hit>, name: string, cs: seq<Candidate>)
    requires cs != []
    ensures hits + ChannelHits(name, cs)
            == hits + ChannelHits(name, cs[..|cs| - 1]) + [Hit(name, |cs|, cs[|cs| - 1])]
  {
  }

  lemma {:induction false} HaveChannel(m: Merged, hits: seq<Hit>, name: string, cs: seq<Candidate>, k: int,
                                       holds: Property)
    requires AllHave(m, hits, holds) && Builds(holds, k)
    ensures AllHave(MergeChannel(m, name, cs, k), hits + ChannelHits(name, cs), holds)
  {
    if cs == [] {
      assert hits + ChannelHits(name, cs) == hits;
    } else {
      var n := |cs| - 1;
      HaveChannel(m, hits, name, cs[..n], k, holds);
      HaveOne(MergeChannel(m, name, cs[..n], k), hits + ChannelHits(name, cs[..n]), Hit(name, |cs|, cs[n]), k, holds);
      HitsMore(hits, name, cs);
    }
  }

  lemma {:induction false} HaveAll(channels: seq<Channel>, filters: Filters, kept: seq<seq<Candidate>>, k: int,
                                   holds: Property)
    requires |kept| == |channels|
    requires forall i :: 0 <= i < |kept| ==> kept[i] == Filtered(channels[i].candidates, filters)
    requires Builds(holds, k)
    ensures AllHave(MergeAll(Prepared(channels, filters), k), AllHits(channels, kept), holds)
  {
    if channels != [] {
      var n := |channels| - 1;
      HaveAll(channels[..n], filters, kept[..n], k, holds);
      assert channels == channels[..n] + [channels[n]];
      PreparedStep(channels[..n], channels[n], filters, k);
      HaveChannel(MergeAll(Prepared(channels[..n], filters), k), AllHits(channels[..n], kept[..n]),
                  Text.Strip(channels[n].name), kept[n], k, holds);
    }
  }

  lemma OnePlace(h: Hit)
    ensures [] + [h] == [h] && [h][..0] == []
  {
  }

  lemma TotalsBuild(k: int)
    ensures Builds((e: Evidence, hits: seq<Hit>) => e.fused == Total(hits, k), k)
  {
    forall h: Hit ensures RowAfter(Fresh(h.found), h, k).fused == Total([h], k) {
      OnePlace(h);
    }
    forall e: Evidence, hits: seq<Hit>, h: Hit | e.fused == Total(hits, k)
      ensures RowAfter(e, h, k).fused == Total(hits + [h], k)
    {
      assert (hits + [h])[..|hits|] == hits;
    }
  }

  predicate FirstShows(e: Evidence, hits: seq<Hit>) {
    && hits != [] && e.id == hits[0].found.id && e.item == hits[0].found.item && e.score == hits[0].found.score
  }

  lemma FirstBuilds(k: int)
    ensures Builds(FirstShows, k)
  {
    forall e: Evidence, hits: seq<Hit>, h: Hit | FirstShows(e, hits) ensures FirstShows(RowAfter(e, h, k), hits + [h]) {
      assert (hits + [h])[0] == hits[0];
    }
  }

  lemma RanksBuild(k: int)
    ensures Builds((e: Evidence, hits: seq<Hit>) => RanksShow(e.ranks, hits), k)
  {
    forall h: Hit ensures RanksShow(RowAfter(Fresh(h.found), h, k).ranks, [h]) {
      RanksMore(map[], [], h);
      OnePlace(h);
    }
    forall e: Evidence, hits: seq<Hit>, h: Hit | RanksShow(e.ranks, hits)
      ensures RanksShow(RowAfter(e, h, k).ranks, hits + [h])
    {
      RanksMore(e.ranks, hits, h);
    }
  }

  lemma ScoresBuild(k: int)
    ensures Builds((e: Evidence, hits: seq<Hit>) => ScoresShow(e.scores, hits), k)
  {
    forall h: Hit ensures ScoresShow(RowAfter(Fresh(h.found), h, k).scores, [h]) {
      ScoresMore(map[], [], h);
      OnePlace(h);
    }
    forall e: Evidence, hits: seq<Hit>, h: Hit | ScoresShow(e.scores, hits)
      ensures ScoresShow(RowAfter(e, h, k).scores, hits + [h])
    {
      ScoresMore(e.scores, hits, h);
    }
  }

  lemma CitationsBuild(k: int)
    ensures Builds((e: Evidence, hits: seq<Hit>) => CitationShows(e.citation, hits), k)
  {
    forall h: Hit ensures CitationShows(RowAfter(Fresh(h.found), h, k).citation, [h]) {
      CitationMore(None, [], h);
      OnePlace(h);
    }
    forall e: Evidence, hits: seq<Hit>, h: Hit | CitationShows(e.citation, hits)
      ensures CitationShows(RowAfter(e, h, k).citation, hits + [h])
    {
      CitationMore(e.citation, hits, h);
    }
  }

  lemma MetadataBuilds(k: int)
    ensures Builds((e: Evidence, hits: seq<Hit>) => MetadataShows(e.metadata, hits), k)
  {
    forall h: Hit ensures MetadataShows(RowAfter(Fresh(h.found), h, k).metadata, [h]) {
      MetadataMore(map[], [], h);
      OnePlace(h);
    }
    forall e: Evidence, hits: seq<Hit>, h: Hit | MetadataShows(e.metadata, hits)
      ensures MetadataShows(RowAfter(e, h, k).metadata, hits + [h])
    {
      MetadataMore(e.metadata, hits, h);
    }
  }

  ghost predicate Shows(m: Merged, hits: seq<Hit>, k: int) {
    && (forall id :: id in m.rows <==> OfId(hits, id) != [])
    && (forall id <- m.rows :: RowShows(m.rows[id], id, OfId(hits, id), k))
  }

  lemma {:induction false} OfIdHas(hits: seq<Hit>, id: string)
    ensures forall h <- OfId(hits, id) :: h.found.id == id
  {
    if hits != [] {
      OfIdHas(hits[..|hits| - 1], id);
    }
  }

  lemma {:induction false} ShowsAll(channels: seq<Channel>, filters: Filters, kept: seq<seq<Candidate>>, k: int)
    requires |kept| == |channels|
    requires forall i :: 0 <= i < |kept| ==> kept[i] == Filtered(channels[i].candidates, filters)
    ensures Shows(MergeAll(Prepared(channels, filters), k), AllHits(channels, kept), k)
  {
    FirstBuilds(k);
    HaveAll(channels, filters, kept, k, FirstShows);
    TotalsBuild(k);
    HaveAll(channels, filters, kept, k, (e: Evidence, hits: seq<Hit>) => e.fused == Total(hits, k));
    RanksBuild(k);
    HaveAll(channels, filters, kept, k, (e: Evidence, hits: seq<Hit>) => RanksShow(e.ranks, hits));
    ScoresBuild(k);
    HaveAll(channels, filters, kept, k, (e: Evidence, hits: seq<Hit>) => ScoresShow(e.scores, hits));
    CitationsBuild(k);
    HaveAll(channels, filters, kept, k, (e: Evidence, hits: seq<Hit>) => CitationShows(e.citation, hits));
    MetadataBuilds(k);
    HaveAll(channels, filters, kept, k, (e: Evidence, hits: seq<Hit>) => MetadataShows(e.metadata, hits));
    var m, hits := MergeAll(Prepared(channels, filters), k), AllHits(channels, kept);
    forall id | id in m.rows ensures RowShows(m.rows[id], id, OfId(hits, id), k) {
      OfIdHas(hits, id);
      assert FirstShows(m.rows[id], OfId(hits, id));
    }
  }

  // ----- the order of the result

  // A higher total, or the same and a better best rank, or that too and the identifier that precedes.
  predicate Sooner(total: real, best: nat, id: string, total': real, best': nat, id': string) {
    if total != total' then total > total'
    else if best != best' then best < best'
    else StringLeq(id, id')
  }

  lemma {:induction false} BestIsLeast(hits: seq<Hit>, ranks: map<string, nat>, best: Option<nat>)
    requires hits != [] && RanksShow(ranks, hits) && IsLeastRank(ranks, best)
    ensures best == Some(Best(hits))
  {
    assert hits[0].channel in ranks;
    var n :| 0 <= n < |hits| && hits[n].rank == Best(hits);
    assert ranks[hits[n].channel] <= Best(hits);
    var ch :| ch in ranks && ranks[ch] == best.value;
  }

  lemma {:induction false} KeyIsStanding(prepared: seq<Channel>, hits: seq<Hit>, k: int, id: string)
    requires Shows(MergeAll(prepared, k), hits, k)
    ensures OfId(hits, id) != [] <==> BestRank(prepared, id).Some?
    ensures OfId(hits, id) != [] ==>
              KeyOf(prepared, k, id) == Key(Total(OfId(hits, id), k), Some(Best(OfId(hits, id))), id)
  {
    var m := MergeAll(prepared, k);
    MergeAllMeans(prepared, k);
    if id in m.rows {
      assert RowMeans(m.rows[id], id, FusedScore(prepared, k, id), BestRank(prepared, id));
      assert RowShows(m.rows[id], id, OfId(hits, id), k);
      BestIsLeast(OfId(hits, id), m.rows[id].ranks, BestRank(prepared, id));
    }
  }

  ghost predicate SoonerHits(hits: seq<Hit>, k: int, a: string, b: string) {
    && OfId(hits, a) != [] && OfId(hits, b) != []
    && Sooner(Total(OfId(hits, a), k), Best(OfId(hits, a)), a, Total(OfId(hits, b), k), Best(OfId(hits, b)), b)
  }

  lemma {:induction false} KeysAreSooner(prepared: seq<Channel>, hits: seq<Hit>, k: int, a: string, b: string)
    requires Shows(MergeAll(prepared, k), hits, k) && OfId(hits, a) != [] && OfId(hits, b) != []
    requires KeyLeq(KeyOf(prepared, k, a), KeyOf(prepared, k, b))
    ensures SoonerHits(hits, k, a, b)
  {
    KeyIsStanding(prepared, hits, k, a);
    KeyIsStanding(prepared, hits, k, b);
  }

  ghost predicate Listed(out: seq<Evidence>, id: string) {
    exists i :: 0 <= i < |out| && out[i].id == id
  }

  ghost predicate AllSooner(out: seq<Evidence>, hits: seq<Hit>, k: int, id: string) {
    forall i :: 0 <= i < |out| ==> SoonerHits(hits, k, out[i].id, id)
  }

  // The list has a row for each of its chunks, in order, and leaves chunks out only when it is full.
  ghost predicate ResultShows(out: seq<Evidence>, hits: seq<Hit>, topK: int, k: int) {
    && |out| <= topK
    && (forall i :: 0 <= i < |out| ==> RowShows(out[i], out[i].id, OfId(hits, out[i].id), k))
    && (forall i, j :: 0 <= i < j < |out| ==> out[i].id != out[j].id && SoonerHits(hits, k, out[i].id, out[j].id))
    && (forall id :: OfId(hits, id) != [] ==> Listed(out, id) || (|out| == topK && AllSooner(out, hits, k, id)))
  }

  // What a list of rows takes from the sorted keys.
  ghost predicate TakenFrom(out: seq<Evidence>, keys: seq<Key>, topK: int) {
    && |out| == (if topK <= |keys| then topK else |keys|)
    && forall i :: 0 <= i < |out| ==> out[i].id == keys[i].id
  }

  lemma {:induction false} ListTaken(prepared: seq<Channel>, hits: seq<Hit>, topK: int, k: int)
    requires topK > 0 && Shows(MergeAll(prepared, k), hits, k)
    ensures TakenFrom(FusedList(prepared, topK, k), SortedKeys(prepared, k), topK)
  {
    FusedListMeans(prepared, topK, k);
  }

  lemma {:induction false} ListRows(prepared: seq<Channel>, hits: seq<Hit>, topK: int, k: int, i: nat)
    requires topK > 0 && Shows(MergeAll(prepared, k), hits, k) && i < |FusedList(prepared, topK, k)|
    ensures var e := FusedList(prepared, topK, k)[i]; RowShows(e, e.id, OfId(hits, e.id), k)
  {
    var m, keys, e := MergeAll(prepared, k), SortedKeys(prepared, k), FusedList(prepared, topK, k)[i];
    ListTaken(prepared, hits, topK, k);
    KeysAreKnown(prepared, k);
    assert keys[i] in keys && e == m.rows[keys[i].id];
  }

  lemma {:induction false} ListComplete(prepared: seq<Channel>, hits: seq<Hit>, topK: int, k: int, id: string)
    requires topK > 0 && Shows(MergeAll(prepared, k), hits, k) && OfId(hits, id) != []
    ensures var out := FusedList(prepared, topK, k);
            Listed(out, id) || (|out| == topK && AllSooner(out, hits, k, id))
  {
    var keys, out := SortedKeys(prepared, k), FusedList(prepared, topK, k);
    ListTaken(prepared, hits, topK, k);
    KeysAreKnown(prepared, k);
    KeyIsStanding(prepared, hits, k, id);
    assert KeyOf(prepared, k, id) in keys;
    var j :| 0 <= j < |keys| && keys[j] == KeyOf(prepared, k, id);
    if j < |out| {
      assert out[j].id == id;
    } else {
      forall i | 0 <= i < |out| ensures SoonerHits(hits, k, out[i].id, id) {
        KeysInOrder(prepared, hits, k, keys, i, j);
      }
    }
  }

  lemma {:induction false} ListShows(prepared: seq<Channel>, hits: seq<Hit>, topK: int, k: int)
    requires topK > 0 && Shows(MergeAll(prepared, k), hits, k)
    ensures ResultShows(FusedList(prepared, topK, k), hits, topK, k)
  {
    var keys, out := SortedKeys(prepared, k), FusedList(prepared, topK, k);
    ListTaken(prepared, hits, topK, k);
    forall i | 0 <= i < |out| ensures RowShows(out[i], out[i].id, OfId(hits, out[i].id), k) {
      ListRows(prepared, hits, topK, k, i);
    }
    forall i, j | 0 <= i < j < |out| ensures out[i].id != out[j].id && SoonerHits(hits, k, out[i].id, out[j].id) {
      KeysInOrder(prepared, hits, k, keys, i, j);
    }
    forall id | OfId(hits, id) != [] ensures Listed(out, id) || (|out| == topK && AllSooner(out, hits, k, id)) {
      ListComplete(prepared, hits, topK, k, id);
    }
  }

  lemma {:induction false} KeysInOrder(prepared: seq<Channel>, hits: seq<Hit>, k: int, keys: seq<Key>, i: nat, j: nat)
    requires Shows(MergeAll(prepared, k), hits, k) && keys == SortedKeys(prepared, k) && i < j < |keys|
    ensures keys[i].id != keys[j].id && SoonerHits(hits, k, keys[i].id, keys[j].id)
  {
    FusedListMeans(prepared, 0, k);
    assert keys[i] in keys && keys[j] in keys;
    KeyIsStanding(prepared, hits, k, keys[i].id);
    KeyIsStanding(prepared, hits, k, keys[j].id);
    KeysAreSooner(prepared, hits, k, keys[i].id, keys[j].id);
  }

  /** The fused list of channels, each with the candidates that fit the filters: a row for every chunk that is found,
      with the sum of 1 / (max(1, k) + rank) over its places, its best rank and last score in each channel, and the
      first citation and metadata; the `topK` rows of the highest sums, then best ranks, then identifiers, in order. */
  lemma FusedListShows(channels: seq<Channel>, filters: Filters, topK: int, k: int) returns (kept: seq<seq<Candidate>>)
    requires topK > 0
    ensures |kept| == |channels|
    ensures forall i :: 0 <= i < |kept| ==> Keeps(channels[i].candidates, filters, kept[i])
    ensures ResultShows(FusedList(Prepared(channels, filters), topK, k), AllHits(channels, kept), topK, k)
  {
    kept := seq(|channels|, i requires 0 <= i < |channels| => Filtered(channels[i].candidates, filters));
    forall i | 0 <= i < |kept| ensures Keeps(channels[i].candidates, filters, kept[i]) {
      var at := FilteredKeeps(channels[i].candidates, filters);
    }
    ShowsAll(channels, filters, kept, k);
    ListShows(Prepared(channels, filters), AllHits(channels, kept), topK, k);
  }
}
