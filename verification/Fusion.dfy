/** Reciprocal rank fusion of several ranked channels, over the real numbers. */
module Fusion {
  import opened Options
  import opened Ordering
  import Reals
  import Text

  datatype Citation = Citation(source: string, asset: string, path: string)

  datatype Candidate = Candidate(
    id: string, item: string, score: real, citation: Option<Citation>, metadata: map<string, string>)

  datatype Evidence = Evidence(
    id: string, item: string, score: real, citation: Option<Citation>, metadata: map<string, string>,
    fused: real, ranks: map<string, nat>, scores: map<string, real>)

  datatype Channel = Channel(name: string, candidates: seq<Candidate>)

  type Filters = map<string, string>

  // ----- filtering

  function FilterValues(c: Candidate): map<string, string> {
    var none := Citation("", "", "");
    var citation := if c.citation.Some? then c.citation.value else none;
    map["knowledge_item_id" := c.item, "source_id" := citation.source, "asset_id" := citation.asset,
        "file_path" := citation.path]
    + c.metadata
  }

  function ValueOr(values: map<string, string>, key: string): string {
    if key in values then values[key] else ""
  }

  predicate Matches(c: Candidate, filters: Filters) {
    forall key <- filters :: ValueOr(FilterValues(c), key) == filters[key]
  }

  function Filtered(cs: seq<Candidate>, filters: Filters): seq<Candidate> {
    if cs == [] then []
    else
      var rest := Filtered(cs[..|cs| - 1], filters);
      if Matches(cs[|cs| - 1], filters) then rest + [cs[|cs| - 1]] else rest
  }

  // The channels as they are fused: names stripped, candidates filtered.
  function Prepared(channels: seq<Channel>, filters: Filters): seq<Channel> {
    if channels == [] then []
    else
      var last := channels[|channels| - 1];
      Prepared(channels[..|channels| - 1], filters)
        + [Channel(Text.Strip(last.name), Filtered(last.candidates, filters))]
  }

  predicate SomeNameBlank(channels: seq<Channel>) {
    exists i :: 0 <= i < |channels| && Text.Strip(channels[i].name) == ""
  }

  // ----- what a fused score means

  function Contribution(k: int, rank: nat): real {
    1.0 / ((if k > 1 then k else 1) + rank) as real
  }

  // The contributions of a candidate in one channel, one for each place where it occurs.
  function ChannelScore(cs: seq<Candidate>, k: int, id: string): real {
    if cs == [] then 0.0
    else ChannelScore(cs[..|cs| - 1], k, id) + if cs[|cs| - 1].id == id then Contribution(k, |cs|) else 0.0
  }

  function FusedScore(channels: seq<Channel>, k: int, id: string): real {
    if channels == [] then 0.0
    else FusedScore(channels[..|channels| - 1], k, id) + ChannelScore(channels[|channels| - 1].candidates, k, id)
  }

  function Least(a: Option<nat>, b: Option<nat>): Option<nat> {
    if a.None? then b else if b.None? then a else if a.value <= b.value then a else b
  }

  // The first place of a candidate in a channel, counted from one.
  function FirstRank(cs: seq<Candidate>, id: string): Option<nat> {
    if cs == [] then None
    else Least(FirstRank(cs[..|cs| - 1], id), if cs[|cs| - 1].id == id then Some(|cs|) else None)
  }

  function BestRank(channels: seq<Channel>, id: string): Option<nat> {
    if channels == [] then None
    else Least(BestRank(channels[..|channels| - 1], id), FirstRank(channels[|channels| - 1].candidates, id))
  }

  // ----- merging

  // Evidence by chunk, with the order in which the chunks first came up.
  datatype Merged = Merged(order: seq<string>, rows: map<string, Evidence>)

  const NOTHING := Merged([], map[])

  function Fresh(c: Candidate): Evidence {
    Evidence(c.id, c.item, c.score, c.citation, c.metadata, 0.0, map[], map[])
  }

  function RankOr(ranks: map<string, nat>, channel: string, rank: nat): nat {
    if channel in ranks && ranks[channel] < rank then ranks[channel] else rank
  }

  function Improved(e: Evidence, channel: string, rank: nat, c: Candidate, k: int): Evidence {
    e.(fused := e.fused + Contribution(k, rank),
       ranks := e.ranks[channel := RankOr(e.ranks, channel, rank)],
       scores := e.scores[channel := c.score],
       citation := if e.citation.None? then c.citation else e.citation,
       metadata := if e.metadata == map[] then c.metadata else e.metadata)
  }

  function MergeOne(m: Merged, channel: string, rank: nat, c: Candidate, k: int): Merged {
    var known := c.id in m.rows;
    var e := if known then m.rows[c.id] else Fresh(c);
    Merged(if known then m.order else m.order + [c.id], m.rows[c.id := Improved(e, channel, rank, c, k)])
  }

  function MergeChannel(m: Merged, channel: string, cs: seq<Candidate>, k: int): Merged {
    if cs == [] then m
    else MergeOne(MergeChannel(m, channel, cs[..|cs| - 1], k), channel, |cs|, cs[|cs| - 1], k)
  }

  function MergeAll(channels: seq<Channel>, k: int): Merged {
    if channels == [] then NOTHING
    else
      var last := channels[|channels| - 1];
      MergeChannel(MergeAll(channels[..|channels| - 1], k), last.name, last.candidates, k)
  }

  // ----- the result

  datatype Key = Key(fused: real, best: Option<nat>, id: string)

  // Higher scores first, then better ranks, then identifiers.
  predicate KeyLeq(a: Key, b: Key) {
    || a.fused > b.fused
    || (a.fused == b.fused && (RankLess(a.best, b.best) || (a.best == b.best && StringLeq(a.id, b.id))))
  }

  predicate RankLess(a: Option<nat>, b: Option<nat>) {
    a.Some? && (b.None? || a.value < b.value)
  }

  function KeyOf(channels: seq<Channel>, k: int, id: string): Key {
    Key(FusedScore(channels, k, id), BestRank(channels, id), id)
  }

  function Keys(channels: seq<Channel>, k: int, ids: seq<string>): seq<Key> {
    seq(|ids|, i requires 0 <= i < |ids| => KeyOf(channels, k, ids[i]))
  }

  function FirstOf<T>(s: seq<T>, n: int): seq<T> {
    if n <= 0 then [] else if n <= |s| then s[..n] else s
  }

  lemma KeyLeqIsOrder()
    ensures Total(KeyLeq) && Transitive(KeyLeq) && Antisymmetric(KeyLeq)
  {
    forall a: Key, b: Key ensures KeyLeq(a, b) || KeyLeq(b, a) {
      StringTotal(a.id, b.id);
    }
    forall a: Key, b: Key, c: Key | KeyLeq(a, b) && KeyLeq(b, c) ensures KeyLeq(a, c) {
      if StringLeq(a.id, b.id) && StringLeq(b.id, c.id) {
        StringTransitive(a.id, b.id, c.id);
      }
    }
    forall a: Key, b: Key | KeyLeq(a, b) && KeyLeq(b, a) ensures a == b {
      StringAntisymmetric(a.id, b.id);
    }
  }

  // ----- the merge computes the declared scores and ranks

  // The smallest rank noted over all channels.
  ghost predicate IsLeastRank(ranks: map<string, nat>, best: Option<nat>) {
    if best.None? then ranks == map[]
    else (exists ch <- ranks :: ranks[ch] == best.value) && forall ch <- ranks :: best.value <= ranks[ch]
  }

  ghost predicate RowMeans(e: Evidence, id: string, fused: real, best: Option<nat>) {
    e.id == id && e.fused == fused && best.Some? && IsLeastRank(e.ranks, best)
  }

  // Of the ids seen so far each has a row with its score and best rank, each once in the order.
  ghost predicate MergedMeans(m: Merged, fused: string -> real, best: string -> Option<nat>) {
    && (forall id :: id in m.rows <==> best(id).Some?)
    && (forall id <- m.rows :: RowMeans(m.rows[id], id, fused(id), best(id)))
    && (forall id :: id !in m.rows ==> fused(id) == 0.0)
    && (forall id :: id in m.order <==> id in m.rows)
    && (forall i, j :: 0 <= i < j < |m.order| ==> m.order[i] != m.order[j])
  }

  lemma ImprovedMeans(e: Evidence, id: string, fused: real, best: Option<nat>, channel: string, rank: nat,
                      c: Candidate, k: int)
    requires e.id == id && e.fused == fused && IsLeastRank(e.ranks, best)
    ensures RowMeans(Improved(e, channel, rank, c, k), id, fused + Contribution(k, rank), Least(best, Some(rank)))
  {
    var after := Improved(e, channel, rank, c, k).ranks;
    var least := Least(best, Some(rank)).value;
    forall ch | ch in after ensures least <= after[ch] {
      assert ch == channel || ch in e.ranks;
    }
    if best.Some? && best.value <= rank {
      var ch :| ch in e.ranks && e.ranks[ch] == best.value;
      assert after[ch] == best.value;
    } else {
      assert after[channel] == rank;
    }
  }

  lemma MergeOneMeans(
    m: Merged, fused: string -> real, best: string -> Option<nat>, channel: string, rank: nat, c: Candidate, k: int,
    fused': string -> real, best': string -> Option<nat>)
    requires MergedMeans(m, fused, best)
    requires forall id :: fused'(id) == fused(id) + if c.id == id then Contribution(k, rank) else 0.0
    requires forall id :: best'(id) == Least(best(id), if c.id == id then Some(rank) else None)
    ensures MergedMeans(MergeOne(m, channel, rank, c, k), fused', best')
  {
    var e := if c.id in m.rows then m.rows[c.id] else Fresh(c);
    ImprovedMeans(e, c.id, fused(c.id), best(c.id), channel, rank, c, k);
    var after := MergeOne(m, channel, rank, c, k);
    forall id | id in after.rows ensures RowMeans(after.rows[id], id, fused'(id), best'(id)) {
      if id != c.id {
        assert RowMeans(m.rows[id], id, fused(id), best(id));
      }
    }
  }

  lemma {:induction false} MergeChannelMeans(
    m: Merged, fused: string -> real, best: string -> Option<nat>, channel: string, cs: seq<Candidate>, k: int)
    requires MergedMeans(m, fused, best)
    ensures MergedMeans(MergeChannel(m, channel, cs, k),
                        id => fused(id) + ChannelScore(cs, k, id), id => Least(best(id), FirstRank(cs, id)))
  {
    if cs == [] {
      SameMeaning(m, fused, best, id => fused(id) + ChannelScore(cs, k, id), id => Least(best(id), FirstRank(cs, id)));
    } else {
      var n := |cs| - 1;
      MergeChannelMeans(m, fused, best, channel, cs[..n], k);
      MergeOneMeans(MergeChannel(m, channel, cs[..n], k),
                    id => fused(id) + ChannelScore(cs[..n], k, id), id => Least(best(id), FirstRank(cs[..n], id)),
                    channel, |cs|, cs[n], k,
                    id => fused(id) + ChannelScore(cs, k, id), id => Least(best(id), FirstRank(cs, id)));
    }
  }

  lemma SameMeaning(
    m: Merged, fused: string -> real, best: string -> Option<nat>, fused': string -> real, best': string -> Option<nat>)
    requires MergedMeans(m, fused, best) && forall id :: fused'(id) == fused(id) && best'(id) == best(id)
    ensures MergedMeans(m, fused', best')
  {
  }

  lemma {:induction false} MergeAllMeans(channels: seq<Channel>, k: int)
    ensures MergedMeans(MergeAll(channels, k), id => FusedScore(channels, k, id), id => BestRank(channels, id))
  {
    if channels != [] {
      var before, last := channels[..|channels| - 1], channels[|channels| - 1];
      MergeAllMeans(before, k);
      MergeChannelMeans(MergeAll(before, k), id => FusedScore(before, k, id), id => BestRank(before, id),
                        last.name, last.candidates, k);
      SameMeaning(MergeAll(channels, k),
                  id => FusedScore(before, k, id) + ChannelScore(last.candidates, k, id),
                  id => Least(BestRank(before, id), FirstRank(last.candidates, id)),
                  id => FusedScore(channels, k, id), id => BestRank(channels, id));
    }
  }

  // ----- the fused list

  function SortedKeys(channels: seq<Channel>, k: int): seq<Key> {
    SortBy(KeyLeq, Keys(channels, k, MergeAll(channels, k).order))
  }

  ghost predicate Known(rows: map<string, Evidence>, keys: seq<Key>) {
    forall key <- keys :: key.id in rows
  }

  function RowsOf(rows: map<string, Evidence>, keys: seq<Key>): seq<Evidence>
    requires Known(rows, keys)
  {
    seq(|keys|, i requires 0 <= i < |keys| => rows[keys[i].id])
  }

  lemma {:induction false} KeysAreKnown(channels: seq<Channel>, k: int)
    ensures Known(MergeAll(channels, k).rows, SortedKeys(channels, k))
    ensures forall key <- SortedKeys(channels, k) :: key == KeyOf(channels, k, key.id)
    ensures forall id :: KeyOf(channels, k, id) in SortedKeys(channels, k) <==> BestRank(channels, id).Some?
  {
    var m := MergeAll(channels, k);
    MergeAllMeans(channels, k);
    SortLength(KeyLeq, Keys(channels, k, m.order));
    forall id | id in m.order ensures KeyOf(channels, k, id) in Keys(channels, k, m.order) {
      var i :| 0 <= i < |m.order| && m.order[i] == id;
      assert Keys(channels, k, m.order)[i] == KeyOf(channels, k, id);
    }
    forall key | key in Keys(channels, k, m.order) ensures key.id in m.order && key == KeyOf(channels, k, key.id) {
    }
  }

  function FusedList(channels: seq<Channel>, topK: int, k: int): seq<Evidence> {
    KeysAreKnown(channels, k);
    FirstOf(RowsOf(MergeAll(channels, k).rows, SortedKeys(channels, k)), topK)
  }

  ghost predicate NoRepeats<T(!new)>(s: seq<T>) {
    forall i, j :: 0 <= i < j < |s| ==> s[i] != s[j]
  }

  lemma {:induction false} NoRepeatsCount<T(!new)>(s: seq<T>, x: T)
    requires NoRepeats(s)
    ensures multiset(s)[x] == if x in s then 1 else 0
  {
    if s != [] {
      NoRepeatsCount(s[1..], x);
      assert s == [s[0]] + s[1..];
      assert s[0] !in s[1..];
    }
  }

  lemma SameElements<T(!new)>(s: seq<T>, t: seq<T>)
    requires NoRepeats(s) && NoRepeats(t) && forall x :: x in s <==> x in t
    ensures multiset(s) == multiset(t)
  {
    forall x: T ensures multiset(s)[x] == multiset(t)[x] {
      NoRepeatsCount(s, x);
      NoRepeatsCount(t, x);
    }
  }

  lemma {:induction false} KeysDoNotRepeat(channels: seq<Channel>, k: int)
    ensures NoRepeats(Keys(channels, k, MergeAll(channels, k).order))
    ensures NoRepeats(SortedKeys(channels, k))
  {
    var m := MergeAll(channels, k);
    MergeAllMeans(channels, k);
    var keys := Keys(channels, k, m.order);
    forall i, j | 0 <= i < j < |keys| ensures keys[i] != keys[j] {
      assert keys[i].id == m.order[i] && keys[j].id == m.order[j];
    }
    SortElements(KeyLeq, keys);
    var sorted := SortedKeys(channels, k);
    forall i, j | 0 <= i < j < |sorted| ensures sorted[i] != sorted[j] {
      if sorted[i] == sorted[j] {
        TwiceCounts(sorted, i, j);
        NoRepeatsCount(keys, sorted[i]);
      }
    }
  }

  // The list holds, in order of their keys, the first topK of the chunks found in some channel, each once,
  // with its declared score.
  lemma {:induction false} FusedListMeans(channels: seq<Channel>, topK: int, k: int)
    ensures var out, keys := FusedList(channels, topK, k), SortedKeys(channels, k);
            && |out| == |FirstOf(keys, topK)|
            && forall i :: 0 <= i < |out| ==>
                 out[i].id == keys[i].id && out[i].fused == FusedScore(channels, k, out[i].id)
    ensures Ordered(KeyLeq, SortedKeys(channels, k)) && NoRepeats(SortedKeys(channels, k))
    ensures forall id :: KeyOf(channels, k, id) in SortedKeys(channels, k) <==> BestRank(channels, id).Some?
    ensures forall key <- SortedKeys(channels, k) :: key == KeyOf(channels, k, key.id)
  {
    KeyLeqIsOrder();
    SortOrdered(KeyLeq, Keys(channels, k, MergeAll(channels, k).order));
    KeysDoNotRepeat(channels, k);
    KeysAreKnown(channels, k);
    var m := MergeAll(channels, k);
    MergeAllMeans(channels, k);
    var keys := SortedKeys(channels, k);
    forall i | 0 <= i < |keys|
      ensures m.rows[keys[i].id].id == keys[i].id
      ensures m.rows[keys[i].id].fused == FusedScore(channels, k, keys[i].id)
    {
      assert keys[i] in keys;
      assert RowMeans(m.rows[keys[i].id], keys[i].id, FusedScore(channels, k, keys[i].id),
                      BestRank(channels, keys[i].id));
    }
  }

  // ----- the order of the channels does not matter

  lemma {:induction false} FusedScoreMiddle(a: seq<Channel>, c: Channel, b: seq<Channel>, k: int, id: string)
    ensures FusedScore(a + [c] + b, k, id) == FusedScore(a + b, k, id) + ChannelScore(c.candidates, k, id)
    ensures BestRank(a + [c] + b, id) == Least(BestRank(a + b, id), FirstRank(c.candidates, id))
  {
    if b == [] {
      assert a + [c] + b == a + [c] && a + b == a;
      assert (a + [c])[..|a|] == a;
    } else {
      var n := |b| - 1;
      FusedScoreMiddle(a, c, b[..n], k, id);
      assert (a + [c] + b)[..|a + [c] + b| - 1] == a + [c] + b[..n];
      assert (a + b)[..|a + b| - 1] == a + b[..n];
    }
  }

  lemma {:induction false} ChannelsInAnyOrder(a: seq<Channel>, b: seq<Channel>, k: int, id: string)
    requires multiset(a) == multiset(b)
    ensures KeyOf(a, k, id) == KeyOf(b, k, id)
    decreases |a|
  {
    if a == [] {
      assert |multiset(b)| == 0;
    } else {
      var n := |a| - 1;
      assert a == a[..n] + [a[n]];
      assert a[n] in multiset(b);
      var i :| 0 <= i < |b| && b[i] == a[n];
      var rest := b[..i] + b[i + 1..];
      assert b == b[..i] + [b[i]] + b[i + 1..];
      assert multiset(rest) == multiset(b) - multiset{b[i]};
      assert multiset(a[..n]) == multiset(a) - multiset{a[n]};
      ChannelsInAnyOrder(a[..n], rest, k, id);
      FusedScoreMiddle(b[..i], b[i], b[i + 1..], k, id);
    }
  }

  // Channels given in another order lead to the same chunks with the same scores in the same order.
  lemma ChannelOrderIsIrrelevant(a: seq<Channel>, b: seq<Channel>, k: int)
    requires multiset(a) == multiset(b)
    ensures SortedKeys(a, k) == SortedKeys(b, k)
  {
    var keys, keys' := SortedKeys(a, k), SortedKeys(b, k);
    FusedListMeans(a, 0, k);
    FusedListMeans(b, 0, k);
    KeyLeqIsOrder();
    forall key ensures key in keys <==> key in keys' {
      ChannelsInAnyOrder(a, b, k, key.id);
    }
    SameElements(keys, keys');
    OrderedUnique(KeyLeq, keys, keys');
  }

  // ----- a chunk that is better in every channel comes first

  // Wherever `b` occurs, it occurs once, and `a` occurs above it.
  ghost predicate Above(cs: seq<Candidate>, a: string, b: string) {
    && (forall i, j :: 0 <= i < j < |cs| && cs[i].id == b ==> cs[j].id != b)
    && (forall j :: 0 <= j < |cs| && cs[j].id == b ==> Occurs(cs[..j], a))
  }

  predicate Occurs(cs: seq<Candidate>, id: string) {
    exists c <- cs :: c.id == id
  }

  lemma ContributionFalls(k: int, r: nat, q: nat)
    requires 1 <= r < q
    ensures Contribution(k, r) > Contribution(k, q) > 0.0
  {
    var least := if k > 1 then k else 1;
    Reals.Reciprocals((least + r) as real, (least + q) as real);
    Reals.Reciprocals((least + q) as real, (least + r) as real);
  }

  // A candidate scores at least what its first place contributes, and nothing if it has none.
  lemma {:induction false} FirstPlaceCounts(cs: seq<Candidate>, k: int, id: string)
    ensures ChannelScore(cs, k, id) >= 0.0
    ensures FirstRank(cs, id).None? ==> ChannelScore(cs, k, id) == 0.0
    ensures FirstRank(cs, id).Some? ==>
              && 1 <= FirstRank(cs, id).value <= |cs|
              && ChannelScore(cs, k, id) >= Contribution(k, FirstRank(cs, id).value)
  {
    if cs != [] {
      FirstPlaceCounts(cs[..|cs| - 1], k, id);
      ContributionFalls(k, |cs|, |cs| + 1);
    }
  }

  lemma {:induction false} AboveScoresMore(cs: seq<Candidate>, k: int, a: string, b: string)
    requires a != b && Above(cs, a, b)
    ensures ChannelScore(cs, k, a) >= ChannelScore(cs, k, b)
    ensures FirstRank(cs, b).Some? ==> ChannelScore(cs, k, a) > ChannelScore(cs, k, b) && FirstRank(cs, a).Some?
  {
    if cs != [] {
      var n := |cs| - 1;
      FirstPlaceCounts(cs[..n], k, a);
      ContributionFalls(k, |cs|, |cs| + 1);
      if cs[n].id == b {
        RankMeansOccurs(cs[..n], b);
        RankMeansOccurs(cs[..n], a);
        FirstPlaceCounts(cs[..n], k, b);
        ContributionFalls(k, FirstRank(cs[..n], a).value, |cs|);
      } else {
        forall j | 0 <= j < n && cs[j].id == b ensures Occurs(cs[..n][..j], a) {
          assert cs[..n][..j] == cs[..j];
        }
        AboveScoresMore(cs[..n], k, a, b);
      }
    }
  }

  lemma {:induction false} AboveFusesMore(channels: seq<Channel>, k: int, a: string, b: string)
    requires a != b && forall ch <- channels :: Above(ch.candidates, a, b)
    ensures FusedScore(channels, k, a) >= FusedScore(channels, k, b)
    ensures BestRank(channels, b).Some?
            ==> FusedScore(channels, k, a) > FusedScore(channels, k, b) && BestRank(channels, a).Some?
  {
    if channels != [] {
      var n := |channels| - 1;
      AboveFusesMore(channels[..n], k, a, b);
      AboveScoresMore(channels[n].candidates, k, a, b);
    }
  }

  lemma {:induction false} RankMeansOccurs(cs: seq<Candidate>, id: string)
    ensures FirstRank(cs, id).Some? <==> Occurs(cs, id)
  {
    if cs != [] {
      var n := |cs| - 1;
      RankMeansOccurs(cs[..n], id);
      assert cs == cs[..n] + [cs[n]];
      if Occurs(cs[..n], id) {
        var c :| c in cs[..n] && c.id == id;
        assert c in cs;
      }
      if cs[n].id == id {
        assert cs[n] in cs;
      }
    }
  }

  // Then `a` precedes `b` in every result that has `b`.
  lemma Dominance(channels: seq<Channel>, topK: int, k: int, a: string, b: string, j: nat) returns (i: nat)
    requires a != b && forall ch <- channels :: Above(ch.candidates, a, b)
    requires j < |FusedList(channels, topK, k)| && FusedList(channels, topK, k)[j].id == b
    ensures i < j && FusedList(channels, topK, k)[i].id == a
  {
    var keys := SortedKeys(channels, k);
    FusedListMeans(channels, topK, k);
    assert keys[j] in keys && keys[j] == KeyOf(channels, k, b);
    AboveFusesMore(channels, k, a, b);
    assert KeyOf(channels, k, a) in keys;
    i :| 0 <= i < |keys| && keys[i] == KeyOf(channels, k, a);
    ComesBefore(KeyLeq, keys, i, j);
  }

  // ----- the fusion, channel by channel

  method RrfFuse(channels: seq<Channel>, filters: Filters, topK: int, k: int) returns (result: Option<seq<Evidence>>)
    ensures topK <= 0 ==> result == Some([])
    ensures topK > 0 && SomeNameBlank(channels) ==> result == None
    ensures topK > 0 && !SomeNameBlank(channels) ==> result == Some(FusedList(Prepared(channels, filters), topK, k))
  {
    if topK <= 0 {
      return Some([]);
    }
    var named, merged := MergeChannels(channels, filters, k);
    if !named {
      return None;
    }
    var fused := TakeBest(Prepared(channels, filters), merged, topK, k);
    result := Some(fused);
  }

  method MergeChannels(channels: seq<Channel>, filters: Filters, k: int) returns (named: bool, merged: Merged)
    ensures named <==> !SomeNameBlank(channels)
    ensures named ==> merged == MergeAll(Prepared(channels, filters), k)
  {
    named, merged := true, NOTHING;
    for i := 0 to |channels|
      invariant !SomeNameBlank(channels[..i])
      invariant merged == MergeAll(Prepared(channels[..i], filters), k)
    {
      var ch := channels[i];
      var name := Text.Strip(ch.name);
      NameStep(channels, i, name);
      if name == "" {
        return false, merged;
      }
      TakeNext(channels, i);
      merged := MergeNext(channels[..i], ch, name, merged, filters, k);
    }
    assert channels[..|channels|] == channels;
  }

  lemma NameStep(channels: seq<Channel>, i: nat, name: string)
    requires i < |channels| && name == Text.Strip(channels[i].name)
    ensures SomeNameBlank(channels[..i + 1]) <==> SomeNameBlank(channels[..i]) || name == ""
    ensures name == "" ==> SomeNameBlank(channels)
  {
    var more := channels[..i + 1];
    assert more[i] == channels[i];
    if n :| 0 <= n < i && Text.Strip(channels[..i][n].name) == "" {
      assert more[n] == channels[..i][n];
    }
    if n :| 0 <= n < |more| && Text.Strip(more[n].name) == "" {
      assert n < i ==> channels[..i][n] == more[n];
    }
  }

  lemma TakeNext(channels: seq<Channel>, i: nat)
    requires i < |channels|
    ensures channels[..i + 1] == channels[..i] + [channels[i]]
  {
  }

  method MergeNext(ghost before: seq<Channel>, ch: Channel, name: string, merged: Merged, filters: Filters, k: int)
    returns (after: Merged)
    requires name == Text.Strip(ch.name) && merged == MergeAll(Prepared(before, filters), k)
    ensures after == MergeAll(Prepared(before + [ch], filters), k)
  {
    var kept := FilterCandidates(ch.candidates, filters);
    after := MergeInto(merged, name, kept, k);
    PreparedStep(before, ch, filters, k);
  }

  lemma {:induction false} PreparedStep(channels: seq<Channel>, ch: Channel, filters: Filters, k: int)
    ensures MergeAll(Prepared(channels + [ch], filters), k)
            == MergeChannel(MergeAll(Prepared(channels, filters), k), Text.Strip(ch.name),
                            Filtered(ch.candidates, filters), k)
  {
    assert (channels + [ch])[..|channels|] == channels;
    var last := Channel(Text.Strip(ch.name), Filtered(ch.candidates, filters));
    assert (Prepared(channels, filters) + [last])[..|Prepared(channels, filters)|] == Prepared(channels, filters);
  }

  method FilterCandidates(cs: seq<Candidate>, filters: Filters) returns (kept: seq<Candidate>)
    ensures kept == Filtered(cs, filters)
  {
    kept := [];
    for i := 0 to |cs|
      invariant kept == Filtered(cs[..i], filters)
    {
      assert cs[..i + 1][..i] == cs[..i];
      if Matches(cs[i], filters) {
        kept := kept + [cs[i]];
      }
    }
    assert cs[..|cs|] == cs;
  }

  method MergeRow(order: seq<string>, rows: map<string, Evidence>, channel: string, rank: nat, c: Candidate, k: int)
    returns (order': seq<string>, rows': map<string, Evidence>)
    ensures Merged(order', rows') == MergeOne(Merged(order, rows), channel, rank, c, k)
  {
    order', rows' := order, rows;
    if c.id !in rows {
      order', rows' := order + [c.id], rows[c.id := Fresh(c)];
    }
    var current := Improve(rows'[c.id], channel, rank, c, k);
    rows' := rows'[c.id := current];
  }

  method MergeInto(before: Merged, channel: string, cs: seq<Candidate>, k: int) returns (merged: Merged)
    ensures merged == MergeChannel(before, channel, cs, k)
  {
    var order, rows := before.order, before.rows;
    for i := 0 to |cs|
      invariant Merged(order, rows) == MergeChannel(before, channel, cs[..i], k)
    {
      order, rows := MergeRow(order, rows, channel, i + 1, cs[i], k);
      MergeTakes(before, channel, cs, k, i);
    }
    assert cs[..|cs|] == cs;
    merged := Merged(order, rows);
  }

  lemma {:induction false} MergeTakes(before: Merged, channel: string, cs: seq<Candidate>, k: int, i: nat)
    requires i < |cs|
    ensures MergeChannel(before, channel, cs[..i + 1], k)
            == MergeOne(MergeChannel(before, channel, cs[..i], k), channel, i + 1, cs[i], k)
  {
    assert cs[..i + 1][..i] == cs[..i];
  }

  method Improve(before: Evidence, channel: string, rank: nat, c: Candidate, k: int) returns (e: Evidence)
    ensures e == Improved(before, channel, rank, c, k)
  {
    e := before.(fused := before.fused + Contribution(k, rank));
    e := e.(ranks := e.ranks[channel := RankOr(e.ranks, channel, rank)]);
    e := e.(scores := e.scores[channel := c.score]);
    if e.citation.None? && c.citation.Some? {
      e := e.(citation := c.citation);
    }
    if e.metadata == map[] && c.metadata != map[] {
      e := e.(metadata := c.metadata);
    }
  }

  method SmallestRank(ranks: map<string, nat>) returns (best: Option<nat>)
    ensures IsLeastRank(ranks, best)
  {
    best := None;
    var rest := ranks.Keys;
    while rest != {}
      invariant rest <= ranks.Keys
      invariant best.None? ==> rest == ranks.Keys
      invariant best.Some? ==> (exists ch <- ranks.Keys - rest :: ranks[ch] == best.value)
      invariant best.Some? ==> forall ch <- ranks.Keys - rest :: best.value <= ranks[ch]
      decreases |rest|
    {
      var ch :| ch in rest;
      rest := rest - {ch};
      assert ch in ranks.Keys - rest;
      if best.None? || ranks[ch] < best.value {
        best := Some(ranks[ch]);
      }
    }
  }

  lemma OneLeastRank(ranks: map<string, nat>, a: Option<nat>, b: Option<nat>)
    requires IsLeastRank(ranks, a) && IsLeastRank(ranks, b)
    ensures a == b
  {
  }

  // The rows with the best keys; a key is read off a merged row.
  method TakeBest(ghost channels: seq<Channel>, merged: Merged, topK: int, k: int) returns (best: seq<Evidence>)
    requires merged == MergeAll(channels, k)
    ensures best == FusedList(channels, topK, k)
  {
    MergeAllMeans(channels, k);
    var keys: seq<Key> := [];
    for i := 0 to |merged.order|
      invariant |keys| == i && forall n :: 0 <= n < i ==> keys[n] == KeyOf(channels, k, merged.order[n])
    {
      var id := merged.order[i];
      var rank := SmallestRank(merged.rows[id].ranks);
      assert RowMeans(merged.rows[id], id, FusedScore(channels, k, id), BestRank(channels, id));
      OneLeastRank(merged.rows[id].ranks, rank, BestRank(channels, id));
      keys := keys + [Key(merged.rows[id].fused, rank, id)];
    }
    assert keys == Keys(channels, k, merged.order);
    KeysAreKnown(channels, k);
    best := FirstOf(RowsOf(merged.rows, SortBy(KeyLeq, keys)), topK);
  }
}
