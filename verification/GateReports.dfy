/** What the release gate reports, said of the manifest and the records alone. */
module GateReports {
  import opened Options
  import opened Ordering
  import opened Places
  import opened ReleaseGate

  // ----- the expected cases

  // The areas of the frozen cases, how many there are of each, and their suites.
  const CASES: seq<(string, nat, Suite)> := [
    ("SRC", 8, Semantic), ("RET", 14, Semantic), ("MODE", 3, Semantic), ("JDG", 8, Semantic), ("DEC", 4, Semantic),
    ("API", 3, CommandReliability), ("CMD", 5, CommandReliability), ("OUT", 1, CommandReliability),
    ("EGR", 3, PrivacyDiagnostics), ("UI", 2, UiEndToEnd)]

  // Case `n` of area `k`, numbered with three digits.
  predicate CaseAt(id: string, k: nat, n: nat) {
    && k < |CASES| && 1 <= n <= CASES[k].1
    && |id| >= 3 && id[..|id| - 3] == "GC-" + CASES[k].0 + "-"
    && id[|id| - 3] == '0' && id[|id| - 2] as int - '0' as int == n / 10 && id[|id| - 1] as int - '0' as int == n % 10
  }

  ghost predicate Expected(id: string, suite: Suite) {
    exists k: nat, n: nat :: CaseAt(id, k, n) && CASES[k].2 == suite
  }

  lemma AreasAre(k: nat)
    requires k < |CASES|
    ensures |AREAS| == |CASES| && AREAS[k] == (CASES[k].0, CASES[k].1) && CASES[k].1 < 100
    ensures '-' !in CASES[k].0 && SuiteOfArea(CASES[k].0) == Some(CASES[k].2)
  {
  }

  lemma CaseIdIs(id: string, k: nat, n: nat)
    requires k < |CASES| && 1 <= n <= CASES[k].1
    ensures CaseAt(id, k, n) <==> id == CaseId(CASES[k].0, n)
  {
    AreasAre(k);
    var area, digits := CASES[k].0, ThreeDigits(n);
    assert CaseId(area, n) == "GC-" + area + "-" + digits;
    assert n / 100 % 10 == 0 && n / 10 % 10 == n / 10;
    if CaseAt(id, k, n) {
      assert id == id[..|id| - 3] + [id[|id| - 3], id[|id| - 2], id[|id| - 1]];
    }
    assert CaseId(area, n)[..|area| + 4] == "GC-" + area + "-";
  }

  lemma {:induction false} RangeHas(area: string, count: nat, id: string)
    ensures id in RangeIds(area, count) <==> exists n: nat :: 1 <= n <= count && id == CaseId(area, n)
  {
    if count > 0 {
      RangeHas(area, count - 1, id);
      if n: nat :| 1 <= n <= count && id == CaseId(area, n) {
        assert n < count ==> id in RangeIds(area, count - 1);
      }
    }
  }

  lemma {:induction false} AreasHave(areas: seq<(string, nat)>, k: nat, id: string)
    requires k < |areas| && id in RangeIds(areas[k].0, areas[k].1)
    ensures id in IdsOfAreas(areas)
  {
    if k < |areas| - 1 {
      AreasHave(areas[..|areas| - 1], k, id);
    }
  }

  lemma SuiteOfCase(id: string, k: nat, n: nat)
    requires CaseAt(id, k, n)
    ensures id in FROZEN && SuiteOf(id) == Some(CASES[k].2)
  {
    AreasAre(k);
    CaseIdIs(id, k, n);
    SplitCaseId(CASES[k].0, n);
    RangeHas(CASES[k].0, CASES[k].1, id);
    AreasHave(AREAS, k, id);
  }

  lemma FrozenCase(id: string) returns (k: nat, n: nat)
    requires id in FROZEN
    ensures CaseAt(id, k, n)
  {
    k := InAreas(AREAS, id);
    AreasAre(k);
    RangeHas(CASES[k].0, CASES[k].1, id);
    n :| 1 <= n <= CASES[k].1 && id == CaseId(CASES[k].0, n);
    CaseIdIs(id, k, n);
  }

  /** The frozen cases are those of the ten areas, each in the suite of its area. */
  lemma FrozenIsExpected(id: string, suite: Suite)
    ensures id in FROZEN && SuiteOf(id) == Some(suite) <==> Expected(id, suite)
  {
    if id in FROZEN {
      var k, n := FrozenCase(id);
      SuiteOfCase(id, k, n);
    }
    if Expected(id, suite) {
      var k: nat, n: nat :| CaseAt(id, k, n) && CASES[k].2 == suite;
      SuiteOfCase(id, k, n);
    }
  }

  ghost predicate IsExpected(id: string) {
    exists suite :: Expected(id, suite)
  }

  lemma FrozenMeans(id: string)
    ensures id in FROZEN <==> IsExpected(id)
  {
    if id in FROZEN {
      FrozenHasSuite(id);
      FrozenIsExpected(id, SuiteOf(id).value);
    }
    if IsExpected(id) {
      var suite :| Expected(id, suite);
      FrozenIsExpected(id, suite);
    }
  }

  // ----- how many there are

  lemma {:induction false} OfSuiteSplit(a: seq<string>, b: seq<string>, suite: Suite)
    ensures OfSuite(a + b, suite) == OfSuite(a, suite) + OfSuite(b, suite)
  {
    if b == [] {
      assert a + b == a;
    } else {
      var n := |b| - 1;
      assert (a + b)[..|a + b| - 1] == a + b[..n];
      OfSuiteSplit(a, b[..n], suite);
    }
  }

  lemma {:induction false} RangeOfSuite(area: string, count: nat, suite: Suite)
    requires '-' !in area
    ensures |OfSuite(RangeIds(area, count), suite)| == if SuiteOfArea(area) == Some(suite) then count else 0
  {
    if count > 0 {
      RangeOfSuite(area, count - 1, suite);
      OfSuiteSplit(RangeIds(area, count - 1), [CaseId(area, count)], suite);
      SplitCaseId(area, count);
      assert [CaseId(area, count)][..0] == [];
    }
  }

  // The cases of a suite in the first `k` areas.
  function TotalBefore(suite: Suite, k: nat): nat
    requires k <= |CASES|
  {
    if k == 0 then 0 else TotalBefore(suite, k - 1) + if CASES[k - 1].2 == suite then CASES[k - 1].1 else 0
  }

  lemma {:induction false} TotalIs(suite: Suite, k: nat)
    requires k <= |CASES| == |AREAS|
    ensures |OfSuite(IdsOfAreas(AREAS[..k]), suite)| == TotalBefore(suite, k)
  {
    if k > 0 {
      TotalIs(suite, k - 1);
      AreasAre(k - 1);
      assert AREAS[..k][..k - 1] == AREAS[..k - 1];
      OfSuiteSplit(IdsOfAreas(AREAS[..k - 1]), RangeIds(AREAS[k - 1].0, AREAS[k - 1].1), suite);
      RangeOfSuite(AREAS[k - 1].0, AREAS[k - 1].1, suite);
    }
  }

  function TotalOf(suite: Suite): nat {
    match suite case Semantic => 37 case CommandReliability => 9 case PrivacyDiagnostics => 3 case UiEndToEnd => 2
  }

  lemma {:induction false} Totals(suite: Suite)
    ensures |OfSuite(FROZEN, suite)| == TotalOf(suite)
  {
    TotalIs(suite, 10);
    assert AREAS[..10] == AREAS;
    assert TotalBefore(suite, 0) == 0;
    assert TotalBefore(suite, 2) == if suite == Semantic then 22 else 0;
    assert TotalBefore(suite, 5) == if suite == Semantic then 37 else 0;
    assert TotalBefore(suite, 7) == if suite == Semantic then 37 else if suite == CommandReliability then 8 else 0;
    assert TotalBefore(suite, 8) == if suite == Semantic then 37 else if suite == CommandReliability then 9 else 0;
  }

  // ----- profiles and cases

  // The records of a profile of a case, and those with one result.
  function RecordsOf(records: seq<Record>, id: string, profile: Profile): set<nat> {
    Where(records, (r: Record) => r.id == id && r.profile == profile)
  }

  function RecordsWith(records: seq<Record>, id: string, profile: Profile, result: CaseResult): set<nat> {
    Where(records, (r: Record) => r.id == id && r.profile == profile && r.result == result)
  }

  // What the records say of a profile that needs one run or three.
  ghost predicate Verdict(records: seq<Record>, id: string, r: Requirement, result: CaseResult) {
    var all := |RecordsOf(records, id, r.profile)|;
    var needed := if r.policy == ThreeRuns then 3 else 1;
    && (result == Failed <==> RecordsWith(records, id, r.profile, Failed) != {})
    && (result == Passed <==> all >= needed && |RecordsWith(records, id, r.profile, Passed)| == all)
    && (result == NotRun <==>
          all == 0 || (all >= needed && |RecordsWith(records, id, r.profile, NotRun)| == all))
  }

  // The worst of the verdicts: failed, inconclusive, not run, passed.
  ghost predicate WorstIs(verdicts: seq<CaseResult>, result: CaseResult) {
    && result in verdicts
    && (result != Failed ==> Failed !in verdicts)
    && (result in {NotRun, Passed} ==> Inconclusive !in verdicts)
    && (result == Passed ==> NotRun !in verdicts)
  }

  ghost predicate VerdictsAre(records: seq<Record>, e: Entry, verdicts: seq<CaseResult>) {
    && |verdicts| == |e.requirements|
    && forall i :: 0 <= i < |verdicts| ==> Verdict(records, e.id, e.requirements[i], verdicts[i])
  }

  ghost predicate CaseShows(c: Case, e: Entry, records: seq<Record>) {
    && c.id == e.id && Expected(e.id, c.suite)
    && exists verdicts :: VerdictsAre(records, e, verdicts) && WorstIs(verdicts, c.result)
  }

  lemma {:induction false} ResultsCount(records: seq<Record>, id: string, profile: Profile, result: CaseResult)
    ensures |ResultsFor(records, id, profile)| == |RecordsOf(records, id, profile)|
    ensures multiset(ResultsFor(records, id, profile))[result] == |RecordsWith(records, id, profile, result)|
  {
    if records == [] {
      assert RecordsOf(records, id, profile) == {} && RecordsWith(records, id, profile, result) == {};
    } else {
      var n := |records| - 1;
      ResultsCount(records[..n], id, profile, result);
      WhereMore(records, (r: Record) => r.id == id && r.profile == profile);
      WhereMore(records, (r: Record) => r.id == id && r.profile == profile && r.result == result);
    }
  }

  // A list holds nothing but `x` exactly when it holds `x` as often as it is long.
  lemma {:induction false} OnlyIsAll(results: seq<CaseResult>, x: CaseResult)
    ensures multiset(results)[x] <= |results|
    ensures multiset(results)[x] == |results| <==> forall r <- results :: r == x
  {
    if results != [] {
      var n := |results| - 1;
      OnlyIsAll(results[..n], x);
      assert results == results[..n] + [results[n]];
      assert results[n] in results;
      forall r | r in results[..n] ensures r in results {
      }
    }
  }

  lemma {:induction false} VerdictIs(records: seq<Record>, id: string, r: Requirement)
    ensures Verdict(records, id, r, AggregateProfile(ResultsFor(records, id, r.profile), r.policy))
  {
    var results := ResultsFor(records, id, r.profile);
    ResultsCount(records, id, r.profile, Failed);
    ResultsCount(records, id, r.profile, Passed);
    ResultsCount(records, id, r.profile, NotRun);
    OnlyIsAll(results, Passed);
    OnlyIsAll(results, NotRun);
    assert Failed in results <==> multiset(results)[Failed] > 0;
    AggregateShows(results, r.policy);
  }

  lemma AggregateShows(results: seq<CaseResult>, policy: RepeatPolicy)
    ensures var needed := if policy == ThreeRuns then 3 else 1; var result := AggregateProfile(results, policy);
            && (result == Failed <==> Failed in results)
            && (result == Passed <==> |results| >= needed && forall r <- results :: r == Passed)
            && (result == NotRun <==> results == [] || (|results| >= needed && forall r <- results :: r == NotRun))
  {
    if results != [] {
      assert results[0] in results;
    }
    var result := AggregateProfile(results, policy);
    if result == Passed {
      forall r | r in results ensures r == Passed {
        match r case Passed => case Failed => case Inconclusive => case NotRun =>
      }
    }
  }

  lemma {:induction false} VerdictsShow(id: string, requirements: seq<Requirement>, records: seq<Record>, i: nat)
    requires i < |requirements|
    ensures |ProfileResults(id, requirements, records)| == |requirements|
    ensures Verdict(records, id, requirements[i], ProfileResults(id, requirements, records)[i])
  {
    var n := |requirements| - 1;
    ProfilesPass(id, requirements[..n], records);
    if i < n {
      VerdictsShow(id, requirements[..n], records, i);
    } else {
      VerdictIs(records, id, requirements[n]);
    }
  }

  lemma {:induction false} WorstShows(results: seq<CaseResult>)
    requires results != []
    ensures WorstIs(results, Worst(results))
  {
    if |results| > 1 {
      var n := |results| - 1;
      WorstShows(results[..n]);
      assert results == results[..n] + [results[n]];
    }
  }

  lemma CaseIsShown(e: Entry, records: seq<Record>)
    requires e.id in FROZEN && e.requirements != []
    ensures CaseShows(CaseOf(e, records), e, records)
  {
    var verdicts := ProfileResults(e.id, e.requirements, records);
    FrozenHasSuite(e.id);
    FrozenIsExpected(e.id, SuiteOf(e.id).value);
    forall i | 0 <= i < |e.requirements|
      ensures |verdicts| == |e.requirements| && Verdict(records, e.id, e.requirements[i], verdicts[i])
    {
      VerdictsShow(e.id, e.requirements, records, i);
    }
    WorstShows(verdicts);
    assert VerdictsAre(records, e, verdicts);
  }

  // ----- the report

  // The entries of expected cases, by their identifiers.
  ghost predicate EntriesOf(manifest: seq<Entry>, entries: seq<Entry>) {
    && (forall i, j :: 0 <= i < j < |entries| ==> StringLeq(entries[i].id, entries[j].id))
    && (forall e :: multiset(entries)[e] == if IsExpected(e.id) then multiset(manifest)[e] else 0)
  }

  ghost predicate CasesShow(cases: seq<Case>, entries: seq<Entry>, records: seq<Record>) {
    |cases| == |entries| && forall i :: 0 <= i < |cases| ==> CaseShows(cases[i], entries[i], records)
  }

  function Kept(manifest: seq<Entry>): seq<Entry> {
    if manifest == [] then []
    else
      var rest := Kept(manifest[..|manifest| - 1]);
      if manifest[|manifest| - 1].id in FROZEN then rest + [manifest[|manifest| - 1]] else rest
  }

  lemma {:induction false} KeptCases(manifest: seq<Entry>, records: seq<Record>)
    requires Evaluable(manifest)
    ensures CasesShow(CasesOf(manifest, records), Kept(manifest), records)
  {
    if manifest != [] {
      var n := |manifest| - 1;
      assert manifest == manifest[..n] + [manifest[n]];
      KeptCases(manifest[..n], records);
      if manifest[n].id in FROZEN {
        CaseIsShown(manifest[n], records);
      }
    }
  }

  lemma {:induction false} KeptCounts(manifest: seq<Entry>, e: Entry)
    ensures multiset(Kept(manifest))[e] == if IsExpected(e.id) then multiset(manifest)[e] else 0
  {
    if manifest != [] {
      var n := |manifest| - 1;
      KeptCounts(manifest[..n], e);
      FrozenMeans(e.id);
      assert manifest == manifest[..n] + [manifest[n]];
    }
  }

  lemma {:induction false} KeptOrdered(manifest: seq<Entry>)
    requires Ordered(ById, manifest)
    ensures Ordered(ById, Kept(manifest)) && forall e <- Kept(manifest) :: e in manifest
  {
    if manifest != [] {
      var n := |manifest| - 1;
      KeptOrdered(manifest[..n]);
      forall e | e in Kept(manifest[..n]) ensures ById(e, manifest[n]) {
        var i :| 0 <= i < n && manifest[..n][i] == e;
        assert ById(manifest[i], manifest[n]);
      }
    }
  }

  lemma ByIdIsOrder()
    ensures Total(ById) && Transitive(ById)
  {
    forall a: Entry, b: Entry ensures ById(a, b) || ById(b, a) {
      StringTotal(a.id, b.id);
    }
    forall a: Entry, b: Entry, c: Entry | ById(a, b) && ById(b, c) ensures ById(a, c) {
      StringTransitive(a.id, b.id, c.id);
    }
  }

  lemma {:induction false} KeptEntries(manifest: seq<Entry>)
    ensures EntriesOf(manifest, Kept(SortBy(ById, manifest)))
  {
    var sorted := SortBy(ById, manifest);
    ByIdIsOrder();
    SortOrdered(ById, manifest);
    SortElements(ById, manifest);
    KeptOrdered(sorted);
    var kept := Kept(sorted);
    forall i, j | 0 <= i < j < |kept| ensures StringLeq(kept[i].id, kept[j].id) {
      assert ById(kept[i], kept[j]);
    }
    forall e: Entry ensures multiset(kept)[e] == if IsExpected(e.id) then multiset(manifest)[e] else 0 {
      KeptCounts(sorted, e);
    }
  }

  // The cases of a suite that did not pass, or did, and with one identifier.
  function Bad(cases: seq<Case>, suite: Suite, id: string): set<nat> {
    Where(cases, (c: Case) => c.suite == suite && c.result != Passed && c.id == id)
  }

  function Good(cases: seq<Case>, suite: Suite): set<nat> {
    Where(cases, (c: Case) => c.suite == suite && c.result == Passed)
  }

  // The identifiers of the cases of the suite that did not pass and of those that are missing, in order.
  ghost predicate SuiteShows(s: SuiteEvaluation, suite: Suite, cases: seq<Case>, missing: seq<string>) {
    && s.suite == suite && s.total == TotalOf(suite) && s.passed == |Good(cases, suite)|
    && (s.result == if s.blocking == [] then Passed else Failed)
    && Ordered(StringLeq, s.blocking)
    && forall id :: multiset(s.blocking)[id]
                    == |Bad(cases, suite, id)| + if Expected(id, suite) then multiset(missing)[id] else 0
  }

  lemma {:induction false} BadCounts(cases: seq<Case>, suite: Suite, id: string)
    ensures multiset(BlockingCases(cases, suite))[id] == |Bad(cases, suite, id)|
  {
    if cases == [] {
      assert Bad(cases, suite, id) == {};
    } else {
      var n := |cases| - 1;
      BadCounts(cases[..n], suite, id);
      WhereMore(cases, (c: Case) => c.suite == suite && c.result != Passed && c.id == id);
    }
  }

  lemma {:induction false} GoodCounts(cases: seq<Case>, suite: Suite)
    ensures PassedCases(cases, suite) == |Good(cases, suite)|
  {
    if cases == [] {
      assert Good(cases, suite) == {};
    } else {
      var n := |cases| - 1;
      GoodCounts(cases[..n], suite);
      WhereMore(cases, (c: Case) => c.suite == suite && c.result == Passed);
    }
  }

  lemma {:induction false} OfSuiteCounts(ids: seq<string>, suite: Suite, id: string)
    ensures multiset(OfSuite(ids, suite))[id] == if SuiteOf(id) == Some(suite) then multiset(ids)[id] else 0
  {
    if ids != [] {
      var n := |ids| - 1;
      OfSuiteCounts(ids[..n], suite, id);
      assert ids == ids[..n] + [ids[n]];
    }
  }

  lemma SuiteIsShown(suite: Suite, cases: seq<Case>, missing: seq<string>)
    requires forall id <- missing :: id in FROZEN
    ensures SuiteShows(SuiteResult(suite, cases, missing), suite, cases, missing)
  {
    var bad, absent := BlockingCases(cases, suite), OfSuite(missing, suite);
    StringsOrdered();
    SortOrdered(StringLeq, bad + absent);
    SortElements(StringLeq, bad + absent);
    Totals(suite);
    GoodCounts(cases, suite);
    forall id ensures multiset(Blocking(suite, cases, missing))[id]
                      == |Bad(cases, suite, id)| + if Expected(id, suite) then multiset(missing)[id] else 0 {
      BadCounts(cases, suite, id);
      OfSuiteCounts(missing, suite, id);
      FrozenIsExpected(id, suite);
      assert id in missing <==> multiset(missing)[id] > 0;
    }
  }

  // Each once, in order: what is expected and not in the manifest, and what is in it and not expected.
  ghost predicate AbsentAre(manifest: seq<Entry>, missing: seq<string>) {
    && Ordered(StringLeq, missing)
    && forall id :: multiset(missing)[id]
                    == if IsExpected(id) && !(exists e <- manifest :: e.id == id) then 1 else 0
  }

  ghost predicate StrangersAre(manifest: seq<Entry>, unexpected: seq<string>) {
    && Ordered(StringLeq, unexpected)
    && forall id :: multiset(unexpected)[id]
                    == if !IsExpected(id) && (exists e <- manifest :: e.id == id) then 1 else 0
  }

  lemma {:induction false} LastIsNew(area: string, count: nat)
    requires 0 < count < 100
    ensures CaseId(area, count) !in RangeIds(area, count - 1)
  {
    var id := CaseId(area, count);
    RangeHas(area, count - 1, id);
    if n: nat :| 1 <= n <= count - 1 && id == CaseId(area, n) {
      SameNumber(area, n, count);
    }
  }

  lemma {:induction false} RangeOnce(area: string, count: nat, id: string)
    requires count < 100
    ensures multiset(RangeIds(area, count))[id] <= 1
  {
    if count > 0 {
      RangeOnce(area, count - 1, id);
      LastIsNew(area, count);
      var before := RangeIds(area, count - 1);
      assert id in before <==> multiset(before)[id] > 0;
    }
  }

  lemma SameNumber(area: string, n: nat, m: nat)
    requires n < 100 && m < 100 && CaseId(area, n) == CaseId(area, m)
    ensures n == m
  {
    var a, b := CaseId(area, n), CaseId(area, m);
    assert a[|area| + 4..] == ThreeDigits(n) && b[|area| + 4..] == ThreeDigits(m);
    assert ThreeDigits(n)[1] == ThreeDigits(m)[1] && ThreeDigits(n)[2] == ThreeDigits(m)[2];
  }

  lemma {:induction false} AreasOnce(k: nat, id: string)
    requires k <= |AREAS|
    ensures multiset(IdsOfAreas(AREAS[..k]))[id] <= 1
  {
    if k > 0 {
      var before := AREAS[..k - 1];
      AreasOnce(k - 1, id);
      AreasAre(k - 1);
      assert AREAS[..k][..k - 1] == before;
      RangeOnce(AREAS[k - 1].0, AREAS[k - 1].1, id);
      if id in IdsOfAreas(before) && id in RangeIds(AREAS[k - 1].0, AREAS[k - 1].1) {
        var j := InAreas(before, id);
        AreasAre(j);
        AreaOf(AREAS[j].0, AREAS[j].1, id);
        AreaOf(AREAS[k - 1].0, AREAS[k - 1].1, id);
        AreasDiffer(j, k - 1);
      }
      assert id in IdsOfAreas(before) <==> multiset(IdsOfAreas(before))[id] > 0;
      assert id in RangeIds(AREAS[k - 1].0, AREAS[k - 1].1)
        <==> multiset(RangeIds(AREAS[k - 1].0, AREAS[k - 1].1))[id] > 0;
    }
  }

  lemma {:induction false} AreaOf(area: string, count: nat, id: string)
    requires '-' !in area && id in RangeIds(area, count)
    ensures |Split(id)| == 3 && Split(id)[1] == area
  {
    RangeHas(area, count, id);
    var n: nat :| 1 <= n <= count && id == CaseId(area, n);
    SplitCaseId(area, n);
  }

  lemma AreasDiffer(j: nat, k: nat)
    requires j < k < |AREAS|
    ensures AREAS[j].0 != AREAS[k].0
  {
  }

  lemma {:induction false} MissingCounts(ids: seq<string>, manifest: seq<Entry>, id: string)
    ensures multiset(MissingOf(ids, manifest))[id] == if id in Ids(manifest) then 0 else multiset(ids)[id]
  {
    if ids != [] {
      var n := |ids| - 1;
      MissingCounts(ids[..n], manifest, id);
      assert ids == ids[..n] + [ids[n]];
    }
  }

  lemma {:induction false} UnexpectedOnce(manifest: seq<Entry>, id: string)
    ensures multiset(UnexpectedOf(manifest))[id] <= 1
  {
    if manifest != [] {
      var n := |manifest| - 1;
      UnexpectedOnce(manifest[..n], id);
      var rest := UnexpectedOf(manifest[..n]);
      assert id in rest <==> multiset(rest)[id] > 0;
    }
  }

  lemma FrozenOnce(id: string)
    ensures multiset(FROZEN)[id] == if IsExpected(id) then 1 else 0
  {
    FrozenMeans(id);
    AreasOnce(|AREAS|, id);
    assert AREAS[..|AREAS|] == AREAS;
    assert id in FROZEN <==> multiset(FROZEN)[id] > 0;
  }

  lemma {:induction false} MissingShows(manifest: seq<Entry>)
    ensures AbsentAre(manifest, SortBy(StringLeq, MissingOf(FROZEN, manifest)))
  {
    var missing := MissingOf(FROZEN, manifest);
    StringsOrdered();
    SortOrdered(StringLeq, missing);
    SortElements(StringLeq, missing);
    forall id ensures multiset(missing)[id]
                      == if IsExpected(id) && !(exists e <- manifest :: e.id == id) then 1 else 0 {
      MissingCounts(FROZEN, manifest, id);
      FrozenOnce(id);
    }
  }

  lemma {:induction false} UnexpectedShows(manifest: seq<Entry>)
    ensures StrangersAre(manifest, SortBy(StringLeq, UnexpectedOf(manifest)))
  {
    var unexpected := UnexpectedOf(manifest);
    StringsOrdered();
    SortOrdered(StringLeq, unexpected);
    SortElements(StringLeq, unexpected);
    UnexpectedMeans(manifest);
    forall id ensures multiset(unexpected)[id]
                      == if !IsExpected(id) && (exists e <- manifest :: e.id == id) then 1 else 0 {
      UnexpectedOnce(manifest, id);
      FrozenMeans(id);
      assert id in unexpected <==> multiset(unexpected)[id] > 0;
    }
  }

  /** The evaluation fails exactly when an expected case of the manifest asks for no profile. */
  lemma EvaluationFails(manifest: seq<Entry>, records: seq<Record>)
    ensures EvaluateGate(manifest, records) == None
            <==> exists e <- manifest :: IsExpected(e.id) && e.requirements == []
  {
    forall e | e in manifest ensures e.id in FROZEN <==> IsExpected(e.id) {
      FrozenMeans(e.id);
    }
  }

  ghost predicate GateShows(gate: Gate, manifest: seq<Entry>, records: seq<Record>, entries: seq<Entry>) {
    && EntriesOf(manifest, entries) && CasesShow(gate.cases, entries, records)
    && AbsentAre(manifest, gate.missing) && StrangersAre(manifest, gate.unexpected)
    && |gate.suites| == 4
    && SuiteShows(gate.suites[0], Semantic, gate.cases, gate.missing)
    && SuiteShows(gate.suites[1], CommandReliability, gate.cases, gate.missing)
    && SuiteShows(gate.suites[2], PrivacyDiagnostics, gate.cases, gate.missing)
    && SuiteShows(gate.suites[3], UiEndToEnd, gate.cases, gate.missing)
    && (gate.result == if gate.missing == [] && gate.unexpected == []
                          && (forall i :: 0 <= i < 4 ==> gate.suites[i].blocking == []) then Passed else Failed)
  }

  /** Otherwise it reports, by identifier, the result of every entry of an expected case: the worst of what the records
      say of its profiles; what is missing and what is unexpected; and for each suite how many of its cases passed and
      which did not or are missing. It passes exactly when nothing is missing, unexpected or blocking. */
  lemma GateIsShown(manifest: seq<Entry>, records: seq<Record>) returns (entries: seq<Entry>)
    requires EvaluateGate(manifest, records).Some?
    ensures GateShows(EvaluateGate(manifest, records).value, manifest, records, entries)
  {
    var gate, sorted := EvaluateGate(manifest, records).value, SortBy(ById, manifest);
    entries := Kept(sorted);
    SortedEvaluable(manifest);
    KeptEntries(manifest);
    KeptCases(sorted, records);
    MissingShows(manifest);
    UnexpectedShows(manifest);
    SuitesShow(manifest, records, gate);
  }

  lemma SuiteAt(manifest: seq<Entry>, records: seq<Record>, gate: Gate, i: nat)
    requires EvaluateGate(manifest, records) == Some(gate) && i < 4
    ensures |gate.suites| == 4 && SuiteShows(gate.suites[i], SUITES[i], gate.cases, gate.missing)
  {
    GateLists(manifest, records, gate);
    SuiteIsShown(SUITES[i], gate.cases, gate.missing);
  }

  lemma SuitesShow(manifest: seq<Entry>, records: seq<Record>, gate: Gate)
    requires EvaluateGate(manifest, records) == Some(gate)
    ensures |gate.suites| == 4
    ensures SuiteShows(gate.suites[0], Semantic, gate.cases, gate.missing)
    ensures SuiteShows(gate.suites[1], CommandReliability, gate.cases, gate.missing)
    ensures SuiteShows(gate.suites[2], PrivacyDiagnostics, gate.cases, gate.missing)
    ensures SuiteShows(gate.suites[3], UiEndToEnd, gate.cases, gate.missing)
    ensures gate.result == if gate.missing == [] && gate.unexpected == []
                              && (forall i :: 0 <= i < 4 ==> gate.suites[i].blocking == []) then Passed else Failed
  {
    SuiteAt(manifest, records, gate, 0);
    SuiteAt(manifest, records, gate, 1);
    SuiteAt(manifest, records, gate, 2);
    SuiteAt(manifest, records, gate, 3);
    ResultShows(manifest, records, gate);
  }

  lemma ResultShows(manifest: seq<Entry>, records: seq<Record>, gate: Gate)
    requires EvaluateGate(manifest, records) == Some(gate) && |gate.suites| == 4
    ensures gate.result == if gate.missing == [] && gate.unexpected == []
                              && (forall i :: 0 <= i < 4 ==> gate.suites[i].blocking == []) then Passed else Failed
  {
    GateLists(manifest, records, gate);
    forall i | 0 <= i < 4 ensures gate.suites[i] in gate.suites {
    }
  }
}
