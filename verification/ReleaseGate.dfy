/** The release gate: execution records are summed up by profile, case, suite and gate. */
module ReleaseGate {
  import opened Options
  import opened Ordering

  datatype CaseResult = Passed | Failed | Inconclusive | NotRun

  datatype Profile = ControlledContract | IntegratedRetrieval | EndToEnd

  datatype RepeatPolicy = Once | ThreeRuns

  datatype Suite = Semantic | CommandReliability | PrivacyDiagnostics | UiEndToEnd

  const SUITES: seq<Suite> := [Semantic, CommandReliability, PrivacyDiagnostics, UiEndToEnd]

  datatype Requirement = Requirement(profile: Profile, policy: RepeatPolicy)

  datatype Entry = Entry(id: string, requirements: seq<Requirement>)

  datatype Record = Record(id: string, profile: Profile, result: CaseResult)

  datatype Case = Case(id: string, suite: Suite, result: CaseResult)

  datatype SuiteEvaluation = SuiteEvaluation(suite: Suite, result: CaseResult, passed: nat, total: nat,
                                             blocking: seq<string>)

  datatype Gate = Gate(
    result: CaseResult, suites: seq<SuiteEvaluation>, cases: seq<Case>, missing: seq<string>, unexpected: seq<string>)

  // ----- the frozen cases and their suites

  function Digit(n: nat): char
    requires n < 10
  {
    '0' + n as char
  }

  function ThreeDigits(n: nat): string {
    [Digit(n / 100 % 10), Digit(n / 10 % 10), Digit(n % 10)]
  }

  function CaseId(area: string, n: nat): string {
    "GC" + "-" + (area + "-" + ThreeDigits(n))
  }

  function RangeIds(area: string, count: nat): seq<string> {
    if count == 0 then [] else RangeIds(area, count - 1) + [CaseId(area, count)]
  }

  const AREAS: seq<(string, nat)> := [
    ("SRC", 8), ("RET", 14), ("MODE", 3), ("JDG", 8), ("DEC", 4), ("API", 3), ("CMD", 5), ("OUT", 1),
    ("EGR", 3), ("UI", 2)]

  function IdsOfAreas(areas: seq<(string, nat)>): seq<string> {
    if areas == [] then []
    else IdsOfAreas(areas[..|areas| - 1]) + RangeIds(areas[|areas| - 1].0, areas[|areas| - 1].1)
  }

  const FROZEN := IdsOfAreas(AREAS)

  function Split(s: string): (parts: seq<string>)
    ensures parts != []
  {
    if s == [] then [[]]
    else if s[0] == '-' then [[]] + Split(s[1..])
    else
      var rest := Split(s[1..]);
      [[s[0]] + rest[0]] + rest[1..]
  }

  // The suite of a case, by the two leading parts of its identifier.
  function SuiteOf(id: string): Option<Suite> {
    var parts := Split(id);
    if |parts| != 3 || parts[0] != "GC" then None else SuiteOfArea(parts[1])
  }

  function SuiteOfArea(area: string): Option<Suite> {
    if area in {"SRC", "RET", "MODE", "JDG", "DEC"} then Some(Semantic)
    else if area in {"API", "CMD", "OUT"} then Some(CommandReliability)
    else if area == "EGR" then Some(PrivacyDiagnostics)
    else if area == "UI" then Some(UiEndToEnd)
    else None
  }

  lemma {:induction false} SplitAtDash(a: string, b: string)
    requires '-' !in a
    ensures Split(a + "-" + b) == [a] + Split(b)
    ensures Split(a) == [a]
  {
    if a == [] {
      assert a + "-" + b == "-" + b;
    } else {
      SplitAtDash(a[1..], b);
      assert (a + "-" + b)[1..] == a[1..] + "-" + b;
      assert [a[0]] + a[1..] == a;
      assert Split(a[1..])[1..] == [];
      assert ([a[1..]] + Split(b))[1..] == Split(b);
    }
  }

  lemma SplitCaseId(area: string, n: nat)
    requires '-' !in area
    ensures Split(CaseId(area, n)) == ["GC", area, ThreeDigits(n)]
  {
    SplitAtDash("GC", area + "-" + ThreeDigits(n));
    SplitAtDash(area, ThreeDigits(n));
    SplitAtDash(ThreeDigits(n), "");
  }

  lemma {:induction false} InRange(area: string, count: nat, id: string)
    requires id in RangeIds(area, count)
    ensures exists n: nat :: id == CaseId(area, n)
  {
    if id != CaseId(area, count) {
      InRange(area, count - 1, id);
    }
  }

  lemma {:induction false} InAreas(areas: seq<(string, nat)>, id: string) returns (k: nat)
    requires id in IdsOfAreas(areas)
    ensures k < |areas| && id in RangeIds(areas[k].0, areas[k].1)
  {
    k := |areas| - 1;
    if id !in RangeIds(areas[k].0, areas[k].1) {
      k := InAreas(areas[..k], id);
    }
  }

  lemma AreaHasSuite(k: nat)
    requires k < |AREAS|
    ensures '-' !in AREAS[k].0 && SuiteOfArea(AREAS[k].0).Some?
  {
  }

  lemma CaseHasSuite(area: string, n: nat)
    requires '-' !in area && SuiteOfArea(area).Some?
    ensures SuiteOf(CaseId(area, n)).Some?
  {
    SplitCaseId(area, n);
  }

  lemma {:induction false} RangeHasSuites(area: string, count: nat, id: string)
    requires '-' !in area && SuiteOfArea(area).Some? && id in RangeIds(area, count)
    ensures SuiteOf(id).Some?
  {
    InRange(area, count, id);
    var n: nat :| id == CaseId(area, n);
    CaseHasSuite(area, n);
  }

  lemma FrozenHasSuite(id: string)
    requires id in FROZEN
    ensures SuiteOf(id).Some?
  {
    var k := InAreas(AREAS, id);
    AreaHasSuite(k);
    RangeHasSuites(AREAS[k].0, AREAS[k].1, id);
  }

  // ----- profiles and cases

  function Needed(policy: RepeatPolicy): nat {
    if policy == Once then 1 else 3
  }

  function AggregateProfile(results: seq<CaseResult>, policy: RepeatPolicy): CaseResult {
    if results == [] then NotRun
    else if Failed in results then Failed
    else if Inconclusive in results then Inconclusive
    else if |results| < Needed(policy) then Inconclusive
    else if NotRun in results then if forall r <- results :: r == NotRun then NotRun else Inconclusive
    else Passed
  }

  function ResultsFor(records: seq<Record>, id: string, profile: Profile): seq<CaseResult> {
    if records == [] then []
    else
      var last := records[|records| - 1];
      var rest := ResultsFor(records[..|records| - 1], id, profile);
      if last.id == id && last.profile == profile then rest + [last.result] else rest
  }

  function Severity(result: CaseResult): nat {
    match result case Passed => 0 case NotRun => 1 case Inconclusive => 2 case Failed => 3
  }

  function ProfileResults(id: string, requirements: seq<Requirement>, records: seq<Record>): seq<CaseResult> {
    if requirements == [] then []
    else
      var last := requirements[|requirements| - 1];
      ProfileResults(id, requirements[..|requirements| - 1], records)
      + [AggregateProfile(ResultsFor(records, id, last.profile), last.policy)]
  }

  function Worse(a: CaseResult, b: CaseResult): CaseResult {
    if Severity(a) < Severity(b) then b else a
  }

  function Worst(results: seq<CaseResult>): CaseResult
    requires results != []
  {
    if |results| == 1 then results[0] else Worse(Worst(results[..|results| - 1]), results[|results| - 1])
  }

  function CaseOf(e: Entry, records: seq<Record>): Case
    requires e.id in FROZEN && e.requirements != []
  {
    FrozenHasSuite(e.id);
    Case(e.id, SuiteOf(e.id).value, Worst(ProfileResults(e.id, e.requirements, records)))
  }

  ghost predicate AllPassed(results: seq<CaseResult>) {
    forall i :: 0 <= i < |results| ==> results[i] == Passed
  }

  // Enough runs of the profile are recorded, and all of them passed.
  ghost predicate ProfileComplete(records: seq<Record>, id: string, r: Requirement) {
    var results := ResultsFor(records, id, r.profile);
    |results| >= Needed(r.policy) && AllPassed(results)
  }

  ghost predicate EntryComplete(e: Entry, records: seq<Record>) {
    ProfilesComplete(e.id, e.requirements, records)
  }

  ghost predicate ProfilesComplete(id: string, requirements: seq<Requirement>, records: seq<Record>) {
    forall i :: 0 <= i < |requirements| ==> ProfileComplete(records, id, requirements[i])
  }

  lemma AggregatePasses(results: seq<CaseResult>, policy: RepeatPolicy)
    ensures AggregateProfile(results, policy) == Passed <==> |results| >= Needed(policy) && AllPassed(results)
  {
    forall i | 0 <= i < |results| ensures results[i] in results {
    }
  }

  lemma {:induction false} WorstPasses(results: seq<CaseResult>)
    requires results != []
    ensures Worst(results) == Passed <==> AllPassed(results)
  {
    if |results| > 1 {
      WorstPasses(results[..|results| - 1]);
    }
  }

  lemma {:induction false} ProfilesPass(id: string, requirements: seq<Requirement>, records: seq<Record>)
    ensures |ProfileResults(id, requirements, records)| == |requirements|
    ensures AllPassed(ProfileResults(id, requirements, records)) <==> ProfilesComplete(id, requirements, records)
  {
    if requirements != [] {
      var n := |requirements| - 1;
      var before := ProfileResults(id, requirements[..n], records);
      ProfilesPass(id, requirements[..n], records);
      var results := ResultsFor(records, id, requirements[n].profile);
      AggregatePasses(results, requirements[n].policy);
      OneMorePassed(before, AggregateProfile(results, requirements[n].policy));
      assert ProfilesComplete(id, requirements, records)
        <==> ProfilesComplete(id, requirements[..n], records) && ProfileComplete(records, id, requirements[n]);
    }
  }

  lemma OneMorePassed(results: seq<CaseResult>, last: CaseResult)
    ensures AllPassed(results + [last]) <==> AllPassed(results) && last == Passed
  {
    var more := results + [last];
    if AllPassed(more) {
      assert more[|results|] == Passed;
      assert forall i :: 0 <= i < |results| ==> results[i] == more[i];
    }
  }

  lemma CasePasses(e: Entry, records: seq<Record>)
    requires e.id in FROZEN && e.requirements != []
    ensures CaseOf(e, records).result == Passed <==> EntryComplete(e, records)
  {
    ProfilesPass(e.id, e.requirements, records);
    WorstPasses(ProfileResults(e.id, e.requirements, records));
  }

  // ----- the gate

  function Ids(manifest: seq<Entry>): set<string> {
    set e <- manifest :: e.id
  }

  function MissingOf(ids: seq<string>, manifest: seq<Entry>): seq<string> {
    if ids == [] then []
    else
      var rest := MissingOf(ids[..|ids| - 1], manifest);
      if ids[|ids| - 1] in Ids(manifest) then rest else rest + [ids[|ids| - 1]]
  }

  function UnexpectedOf(manifest: seq<Entry>): seq<string> {
    if manifest == [] then []
    else
      var id := manifest[|manifest| - 1].id;
      var rest := UnexpectedOf(manifest[..|manifest| - 1]);
      if id in FROZEN || id in rest then rest else rest + [id]
  }

  // Every case that will be summed up has a profile to sum up.
  predicate Evaluable(manifest: seq<Entry>) {
    forall e <- manifest :: e.id in FROZEN ==> e.requirements != []
  }

  function CasesOf(manifest: seq<Entry>, records: seq<Record>): seq<Case>
    requires Evaluable(manifest)
  {
    if manifest == [] then []
    else
      var e := manifest[|manifest| - 1];
      var rest := CasesOf(manifest[..|manifest| - 1], records);
      if e.id in FROZEN then rest + [CaseOf(e, records)] else rest
  }

  function BlockingCases(cases: seq<Case>, suite: Suite): seq<string> {
    if cases == [] then []
    else
      var c := cases[|cases| - 1];
      var rest := BlockingCases(cases[..|cases| - 1], suite);
      if c.suite == suite && c.result != Passed then rest + [c.id] else rest
  }

  function PassedCases(cases: seq<Case>, suite: Suite): nat {
    if cases == [] then 0
    else
      var c := cases[|cases| - 1];
      PassedCases(cases[..|cases| - 1], suite) + if c.suite == suite && c.result == Passed then 1 else 0
  }

  function OfSuite(ids: seq<string>, suite: Suite): seq<string> {
    if ids == [] then []
    else
      var rest := OfSuite(ids[..|ids| - 1], suite);
      if SuiteOf(ids[|ids| - 1]) == Some(suite) then rest + [ids[|ids| - 1]] else rest
  }

  function Blocking(suite: Suite, cases: seq<Case>, missing: seq<string>): seq<string> {
    SortBy(StringLeq, BlockingCases(cases, suite) + OfSuite(missing, suite))
  }

  function SuiteResult(suite: Suite, cases: seq<Case>, missing: seq<string>): SuiteEvaluation {
    var blocking := Blocking(suite, cases, missing);
    SuiteEvaluation(suite, if blocking == [] then Passed else Failed,
                    PassedCases(cases, suite), |OfSuite(FROZEN, suite)|, blocking)
  }

  function SuiteResults(suites: seq<Suite>, cases: seq<Case>, missing: seq<string>): seq<SuiteEvaluation> {
    seq(|suites|, i requires 0 <= i < |suites| => SuiteResult(suites[i], cases, missing))
  }

  predicate ById(a: Entry, b: Entry) {
    StringLeq(a.id, b.id)
  }

  lemma {:induction false} SortedEvaluable(manifest: seq<Entry>)
    ensures Evaluable(SortBy(ById, manifest)) == Evaluable(manifest)
  {
    SortLength(ById, manifest);
  }

  function GateFrom(cases: seq<Case>, missing: seq<string>, unexpected: seq<string>): Gate {
    var suites := SuiteResults(SUITES, cases, missing);
    var passed := missing == [] && unexpected == [] && forall s <- suites :: s.result == Passed;
    Gate(if passed then Passed else Failed, suites, cases, missing, unexpected)
  }

  // The evaluation; without profiles to sum up there is no worst result, and the evaluation raises.
  function EvaluateGate(manifest: seq<Entry>, records: seq<Record>): Option<Gate> {
    if !Evaluable(manifest) then None
    else
      SortedEvaluable(manifest);
      Some(GateFrom(CasesOf(SortBy(ById, manifest), records),
                    SortBy(StringLeq, MissingOf(FROZEN, manifest)), SortBy(StringLeq, UnexpectedOf(manifest))))
  }

  // ----- when the gate passes

  lemma {:induction false} MissingMeans(ids: seq<string>, manifest: seq<Entry>)
    ensures forall id :: id in MissingOf(ids, manifest) <==> id in ids && id !in Ids(manifest)
  {
    if ids != [] {
      MissingMeans(ids[..|ids| - 1], manifest);
      assert ids == ids[..|ids| - 1] + [ids[|ids| - 1]];
    }
  }

  lemma {:induction false} UnexpectedMeans(manifest: seq<Entry>)
    ensures forall id :: id in UnexpectedOf(manifest) <==> id in Ids(manifest) && id !in FROZEN
  {
    if manifest == [] {
      assert Ids(manifest) == {};
    } else {
      var n := |manifest| - 1;
      UnexpectedMeans(manifest[..n]);
      assert manifest == manifest[..n] + [manifest[n]];
    }
  }

  lemma {:induction false} CasesMean(manifest: seq<Entry>, records: seq<Record>)
    requires Evaluable(manifest)
    ensures forall e <- manifest :: e.id in FROZEN ==> CaseOf(e, records) in CasesOf(manifest, records)
    ensures forall c <- CasesOf(manifest, records) :: exists e <- manifest :: e.id in FROZEN && c == CaseOf(e, records)
  {
    if manifest != [] {
      var n := |manifest| - 1;
      CasesMean(manifest[..n], records);
      assert manifest == manifest[..n] + [manifest[n]];
    }
  }

  lemma {:induction false} BlockingCasesMean(cases: seq<Case>, suite: Suite, id: string)
    ensures id in BlockingCases(cases, suite)
            <==> exists c <- cases :: c.id == id && c.suite == suite && c.result != Passed
  {
    if cases != [] {
      var n := |cases| - 1;
      BlockingCasesMean(cases[..n], suite, id);
      assert cases == cases[..n] + [cases[n]];
    }
  }

  lemma {:induction false} OfSuiteMeans(ids: seq<string>, suite: Suite)
    ensures forall id :: id in OfSuite(ids, suite) <==> id in ids && SuiteOf(id) == Some(suite)
  {
    if ids != [] {
      OfSuiteMeans(ids[..|ids| - 1], suite);
      assert ids == ids[..|ids| - 1] + [ids[|ids| - 1]];
    }
  }

  // A case blocks its suite when it is missing from the manifest or some entry for it did not pass.
  ghost predicate Blocks(manifest: seq<Entry>, records: seq<Record>, id: string) {
    id in FROZEN && (id !in Ids(manifest) || exists e <- manifest :: e.id == id && !EntryComplete(e, records))
  }

  lemma {:induction false} SuiteBlockingMeans(manifest: seq<Entry>, records: seq<Record>, suite: Suite, id: string)
    requires Evaluable(manifest)
    ensures Evaluable(SortBy(ById, manifest))
    ensures id in Blocking(suite, CasesOf(SortBy(ById, manifest), records),
                           SortBy(StringLeq, MissingOf(FROZEN, manifest)))
            <==> Blocks(manifest, records, id) && SuiteOf(id) == Some(suite)
  {
    SortedEvaluable(manifest);
    var sorted := SortBy(ById, manifest);
    var cases, missing := CasesOf(sorted, records), SortBy(StringLeq, MissingOf(FROZEN, manifest));
    SortLength(ById, manifest);
    SortLength(StringLeq, MissingOf(FROZEN, manifest));
    SortLength(StringLeq, BlockingCases(cases, suite) + OfSuite(missing, suite));
    MissingMeans(FROZEN, manifest);
    OfSuiteMeans(missing, suite);
    BlockingCasesMean(cases, suite, id);
    CasesMean(sorted, records);
    NotPassedMeans(manifest, sorted, records, cases, suite, id);
  }

  lemma NotPassedCase(records: seq<Record>, c: Case, e: Entry)
    requires e.id in FROZEN && e.requirements != [] && c == CaseOf(e, records)
    ensures c.id == e.id && SuiteOf(c.id) == Some(c.suite)
    ensures c.result != Passed <==> !EntryComplete(e, records)
  {
    CasePasses(e, records);
    FrozenHasSuite(e.id);
  }

  lemma NotPassedMeans(manifest: seq<Entry>, sorted: seq<Entry>, records: seq<Record>, cases: seq<Case>, suite: Suite,
                       id: string)
    requires Evaluable(manifest) && (forall e :: e in sorted <==> e in manifest)
    requires forall e <- sorted :: e.id in FROZEN ==> CaseOf(e, records) in cases
    requires forall c <- cases :: exists e <- sorted :: e.id in FROZEN && c == CaseOf(e, records)
    ensures (exists c <- cases :: c.id == id && c.suite == suite && c.result != Passed)
            ==> id in FROZEN && SuiteOf(id) == Some(suite)
                && exists e <- manifest :: e.id == id && !EntryComplete(e, records)
    ensures id in FROZEN && SuiteOf(id) == Some(suite)
            && (exists e <- manifest :: e.id == id && !EntryComplete(e, records))
            ==> exists c <- cases :: c.id == id && c.suite == suite && c.result != Passed
  {
    if c :| c in cases && c.id == id && c.suite == suite && c.result != Passed {
      var e :| e in sorted && e.id in FROZEN && c == CaseOf(e, records);
      NotPassedCase(records, c, e);
      assert e in manifest;
    }
    if id in FROZEN && SuiteOf(id) == Some(suite) {
      if e :| e in manifest && e.id == id && !EntryComplete(e, records) {
        NotPassedCase(records, CaseOf(e, records), e);
        assert CaseOf(e, records) in cases;
      }
    }
  }

  // The blocking lists of the four suites together are exactly the cases that are missing or did not pass.
  lemma BlockingListsAreExact(manifest: seq<Entry>, records: seq<Record>, id: string)
    requires EvaluateGate(manifest, records).Some?
    ensures (exists s <- EvaluateGate(manifest, records).value.suites :: id in s.blocking)
            <==> Blocks(manifest, records, id)
  {
    var suites := EvaluateGate(manifest, records).value.suites;
    forall i | 0 <= i < 4
      ensures id in suites[i].blocking <==> Blocks(manifest, records, id) && SuiteOf(id) == Some(SUITES[i])
    {
      SuiteBlockingMeans(manifest, records, SUITES[i], id);
    }
    if Blocks(manifest, records, id) {
      FrozenHasSuite(id);
      assert SuiteOf(id).value == SUITES[0] || SuiteOf(id).value == SUITES[1] || SuiteOf(id).value == SUITES[2]
        || SuiteOf(id).value == SUITES[3];
      assert forall i :: 0 <= i < 4 ==> suites[i] in suites;
    }
  }

  // The manifest lists exactly the frozen cases, and every required profile of every entry is complete.
  ghost predicate AllComplete(manifest: seq<Entry>, records: seq<Record>) {
    && (forall id :: id in Ids(manifest) <==> id in FROZEN)
    && forall e <- manifest :: EntryComplete(e, records)
  }

  lemma NothingBlocks(manifest: seq<Entry>, records: seq<Record>)
    ensures AllComplete(manifest, records) <==> Unblocked(manifest, records)
  {
    if Unblocked(manifest, records) {
      forall e | e in manifest ensures EntryComplete(e, records) {
        assert e.id in Ids(manifest);
        assert !Blocks(manifest, records, e.id);
      }
      forall id | id in FROZEN ensures id in Ids(manifest) {
        assert !Blocks(manifest, records, id);
      }
    }
  }

  lemma GatePasses(manifest: seq<Entry>, records: seq<Record>)
    requires EvaluateGate(manifest, records).Some?
    ensures EvaluateGate(manifest, records).value.result == Passed <==> AllComplete(manifest, records)
  {
    var gate := EvaluateGate(manifest, records).value;
    NothingBlocks(manifest, records);
    forall id ensures (exists s <- gate.suites :: id in s.blocking) <==> Blocks(manifest, records, id) {
      BlockingListsAreExact(manifest, records, id);
    }
    if gate.result == Passed {
      PassedIsUnblocked(manifest, records, gate);
    }
    if Unblocked(manifest, records) {
      UnblockedPasses(manifest, records, gate);
    }
  }

  ghost predicate Unblocked(manifest: seq<Entry>, records: seq<Record>) {
    (forall id :: !Blocks(manifest, records, id)) && (forall id <- Ids(manifest) :: id in FROZEN)
  }

  ghost predicate ListsAreExact(manifest: seq<Entry>, records: seq<Record>, suites: seq<SuiteEvaluation>) {
    forall id :: (exists s <- suites :: id in s.blocking) <==> Blocks(manifest, records, id)
  }

  lemma GateLists(manifest: seq<Entry>, records: seq<Record>, gate: Gate)
    requires EvaluateGate(manifest, records) == Some(gate)
    ensures forall id :: id in gate.missing <==> id in FROZEN && id !in Ids(manifest)
    ensures forall id :: id in gate.unexpected <==> id in Ids(manifest) && id !in FROZEN
    ensures forall s <- gate.suites :: s.result == Passed <==> s.blocking == []
    ensures gate.result == Passed
            <==> gate.missing == [] && gate.unexpected == [] && forall s <- gate.suites :: s.blocking == []
  {
    MissingMeans(FROZEN, manifest);
    UnexpectedMeans(manifest);
    SortLength(StringLeq, MissingOf(FROZEN, manifest));
    SortLength(StringLeq, UnexpectedOf(manifest));
  }

  lemma UnblockedPasses(manifest: seq<Entry>, records: seq<Record>, gate: Gate)
    requires EvaluateGate(manifest, records) == Some(gate) && ListsAreExact(manifest, records, gate.suites)
    requires Unblocked(manifest, records)
    ensures gate.result == Passed
  {
    GateLists(manifest, records, gate);
    if gate.missing != [] {
      var id := SomeMember(gate.missing);
      MissingBlocks(manifest, records, id);
    }
    if gate.unexpected != [] {
      var id := SomeMember(gate.unexpected);
    }
    forall s | s in gate.suites ensures s.blocking == [] {
      SuiteUnblocked(manifest, records, gate.suites, s);
    }
  }

  lemma MissingBlocks(manifest: seq<Entry>, records: seq<Record>, id: string)
    requires id in FROZEN && id !in Ids(manifest)
    ensures Blocks(manifest, records, id)
  {
  }

  lemma SuiteUnblocked(manifest: seq<Entry>, records: seq<Record>, suites: seq<SuiteEvaluation>, s: SuiteEvaluation)
    requires ListsAreExact(manifest, records, suites) && Unblocked(manifest, records) && s in suites
    ensures s.blocking == []
  {
    if s.blocking != [] {
      var id := SomeMember(s.blocking);
      BlockingBlocks(manifest, records, suites, s, id);
    }
  }

  lemma BlockingBlocks(manifest: seq<Entry>, records: seq<Record>, suites: seq<SuiteEvaluation>, s: SuiteEvaluation,
                       id: string)
    requires ListsAreExact(manifest, records, suites) && s in suites && id in s.blocking
    ensures Blocks(manifest, records, id)
  {
  }

  lemma PassedIsUnblocked(manifest: seq<Entry>, records: seq<Record>, gate: Gate)
    requires EvaluateGate(manifest, records) == Some(gate) && ListsAreExact(manifest, records, gate.suites)
    requires gate.result == Passed
    ensures Unblocked(manifest, records)
  {
    GateLists(manifest, records, gate);
  }

  lemma SomeMember(ids: seq<string>) returns (id: string)
    requires ids != []
    ensures id in ids
  {
    id := ids[0];
  }

  // ----- more records

  lemma MoreComplete(id: string, requirements: seq<Requirement>, records: seq<Record>, more: Record)
    requires ProfilesComplete(id, requirements, records) && more.result == Passed
    ensures ProfilesComplete(id, requirements, records + [more])
  {
    forall i | 0 <= i < |requirements| ensures ProfileComplete(records + [more], id, requirements[i]) {
      assert ProfileComplete(records, id, requirements[i]);
      OneMorePassed(ResultsFor(records, id, requirements[i].profile), more.result);
    }
  }

  // Another passed record never takes a pass away.
  lemma PassedRecordKeepsPass(manifest: seq<Entry>, records: seq<Record>, more: Record)
    requires EvaluateGate(manifest, records).Some? && EvaluateGate(manifest, records).value.result == Passed
    requires more.result == Passed
    ensures EvaluateGate(manifest, records + [more]).Some?
            && EvaluateGate(manifest, records + [more]).value.result == Passed
  {
    GatePasses(manifest, records);
    GatePasses(manifest, records + [more]);
    forall e | e in manifest ensures EntryComplete(e, records + [more]) {
      assert EntryComplete(e, records);
      MoreComplete(e.id, e.requirements, records, more);
    }
  }

  // One record that did not pass, for a required profile of an expected case, closes the gate whatever else is
  // recorded.
  lemma OneBadRecordBlocks(manifest: seq<Entry>, records: seq<Record>, e: Entry, r: Requirement, bad: Record)
    requires EvaluateGate(manifest, records).Some?
    requires e in manifest && r in e.requirements && bad in records && bad.id == e.id && bad.profile == r.profile
            && bad.result != Passed
    ensures EvaluateGate(manifest, records).value.result == Failed
  {
    GatePasses(manifest, records);
    RecordCounts(records, bad);
    assert !ProfileComplete(records, e.id, r);
    assert !EntryComplete(e, records);
  }

  lemma {:induction false} RecordCounts(records: seq<Record>, bad: Record)
    requires bad in records
    ensures bad.result in ResultsFor(records, bad.id, bad.profile)
  {
    var n := |records| - 1;
    assert records == records[..n] + [records[n]];
    if records[n] != bad {
      RecordCounts(records[..n], bad);
    }
  }

  // ----- the evaluation, suite by suite

  method EvaluateMinimumSliceGate(manifest: seq<Entry>, records: seq<Record>) returns (gate: Option<Gate>)
    ensures gate == EvaluateGate(manifest, records)
  {
    var missing := SortBy(StringLeq, MissingOf(FROZEN, manifest));
    var unexpected := SortBy(StringLeq, UnexpectedOf(manifest));
    SortedEvaluable(manifest);
    var evaluable, cases := AggregateCases(SortBy(ById, manifest), records);
    if !evaluable {
      return None;
    }
    var suites := AggregateSuites(cases, missing);
    var passed := missing == [] && unexpected == [] && forall s <- suites :: s.result == Passed;
    gate := Some(Gate(if passed then Passed else Failed, suites, cases, missing, unexpected));
  }

  method AggregateSuites(cases: seq<Case>, missing: seq<string>) returns (suites: seq<SuiteEvaluation>)
    ensures suites == SuiteResults(SUITES, cases, missing)
  {
    suites := [];
    for i := 0 to |SUITES|
      invariant |suites| == i && forall n :: 0 <= n < i ==> suites[n] == SuiteResult(SUITES[n], cases, missing)
    {
      var suite := AggregateSuite(SUITES[i], cases, missing);
      suites := suites + [suite];
    }
  }

  method AggregateCases(manifest: seq<Entry>, records: seq<Record>) returns (evaluable: bool, cases: seq<Case>)
    ensures evaluable <==> Evaluable(manifest)
    ensures evaluable ==> cases == CasesOf(manifest, records)
  {
    evaluable, cases := true, [];
    for i := 0 to |manifest|
      invariant Evaluable(manifest[..i]) && cases == CasesOf(manifest[..i], records)
    {
      assert manifest[..i + 1][..i] == manifest[..i];
      assert manifest[..i + 1] == manifest[..i] + [manifest[i]];
      if manifest[i].id in FROZEN {
        if manifest[i].requirements == [] {
          assert manifest[i] in manifest;
          return false, [];
        }
        cases := cases + [CaseOf(manifest[i], records)];
      }
    }
    assert manifest[..|manifest|] == manifest;
  }

  method AggregateSuite(suite: Suite, cases: seq<Case>, missing: seq<string>) returns (evaluation: SuiteEvaluation)
    ensures evaluation == SuiteResult(suite, cases, missing)
  {
    var blocking: seq<string> := [];
    var passed := 0;
    for i := 0 to |cases|
      invariant blocking == BlockingCases(cases[..i], suite) && passed == PassedCases(cases[..i], suite)
    {
      assert cases[..i + 1][..i] == cases[..i];
      if cases[i].suite == suite {
        if cases[i].result != Passed {
          blocking := blocking + [cases[i].id];
        } else {
          passed := passed + 1;
        }
      }
    }
    assert cases[..|cases|] == cases;
    blocking := blocking + OfSuite(missing, suite);
    evaluation := SuiteEvaluation(suite, if blocking == [] then Passed else Failed, passed, |OfSuite(FROZEN, suite)|,
                                  SortBy(StringLeq, blocking));
    SortLength(StringLeq, blocking);
  }
}
