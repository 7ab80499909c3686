/**
  A run in which an audit that would pass is refused because the last one passed, and in which a user
  withdraws a proposal and then accepts it, twice.
 */
module WithdrawnAccepted {
  import opened Options
  import opened Decisions

  const CLAIM := ClaimCandidate(true, CoreJudgment, Fact, FactProfile, Supported, [2])
  const ROW := Claim(4, true, true, Supported, [2])
  const PLAIN := Terms(false, false)

  const PREPARE: seq<Command> := [OpenCase, OpenRun(0), RecordUse(1, 9, true)]
  const DRAFT := CreateDraft(1, 1, [CLAIM])
  const AUDIT := RunAudit(3, 1, [])
  const PROPOSE := CreateProposal(3, 2, ContinueResearch, PLAIN, [])
  const REJECT := RejectProposal(8, 1)

  function Accept(revision: nat): Command {
    AcceptProposal(8, revision, 3, 6, [])
  }

  function Prepared(): Store {
    EMPTY.(next := 3, cases := map[0 := Case(1, None)], runs := map[1 := CaseRun(0, 1, true)],
           uses := map[2 := EvidenceUse(1, 9, true)])
  }

  function Drafted(): Store {
    Prepared().(next := 5, currentJudgment := map[1 := 3],
                judgments := map[3 := Judgment(0, 1, 1, 1, false, [ROW], Pending, None, None, None)])
  }

  function Audited(): Store {
    Drafted().(
      next := 7, audits := map[5 := Audit(3, [], Acceptable)],
      fitnesses := map[6 := Fitness(3, {Understanding, ResearchPlanning, Observation}, FORBIDDEN_USES)],
      issuedBy := map[6 := 5],
      judgments := map[3 := Judgment(0, 1, 1, 2, false, [ROW], Passed(Acceptable), Some(5), Some(6), None)])
  }

  function Proposed(): Store {
    Audited().(next := 9, currentProposal := map[7 := 8], proposals := map[8 := Row(Undecided, Current, 1)])
  }

  function Row(decision: Decision, lifecycle: Lifecycle, revision: nat): Proposal {
    Proposal(7, 0, 3, 6, ContinueResearch, PLAIN, decision, lifecycle, 1, revision, [], None)
  }

  lemma {:induction false} RunSnoc(commands: seq<Command>, c: Command)
    ensures Run(EMPTY, commands + [c]) == Next(Run(EMPTY, commands), c)
  {
    assert (commands + [c])[..|commands|] == commands;
  }

  lemma PrepareRuns()
    ensures Run(EMPTY, PREPARE) == Prepared()
  {
    RunSnoc([], OpenCase);
    assert Run(EMPTY, [OpenCase]).cases == map[0 := Case(1, None)];
    RunSnoc([OpenCase], OpenRun(0));
    assert [OpenCase] + [OpenRun(0)] == [OpenCase, OpenRun(0)];
    RunSnoc([OpenCase, OpenRun(0)], RecordUse(1, 9, true));
    assert [OpenCase, OpenRun(0)] + [RecordUse(1, 9, true)] == PREPARE;
  }

  lemma DraftRuns()
    ensures Next(Prepared(), DRAFT) == Drafted()
  {
    assert KeptLinks(Prepared().uses, [2], {}) == [2];
    assert ClaimsOf(Prepared().uses, 4, [CLAIM]) == [ROW];
  }

  lemma CleanPrecheck()
    ensures LinksKnown(Drafted().uses, [ROW]) && Precheck(Drafted().uses, [ROW]) == []
  {
    assert LinkFindings(Drafted().uses, 4, [2]) == [];
  }

  lemma AuditRuns()
    ensures Next(Drafted(), AUDIT) == Audited()
  {
    var s := Drafted();
    CleanPrecheck();
    assert AuditCandidates(s, 3, []) == Some([]);
    assert FindingIds(6, 0) == [];
    assert s.findings + FindingRows(5, 6, []) == s.findings;
    assert AuditStep(s, 3, 1, []).value.judgments == Audited().judgments;
  }

  lemma ProposeRuns()
    ensures Next(Audited(), PROPOSE) == Proposed()
  {
    assert Warnings(Audited().findings, 5) == {};
  }

  lemma RejectRuns()
    ensures Next(Proposed(), REJECT) == Proposed().(proposals := map[8 := Row(Rejected, Withdrawn, 2)])
  {
  }

  ghost predicate LikeWithdrawn(s: Store, decision: Decision, revision: nat) {
    && 0 in s.cases
    && s == Proposed().(next := s.next, cases := s.cases, dispositions := s.dispositions,
                        proposals := map[8 := Row(decision, Withdrawn, revision)])
  }

  lemma AcceptRuns(s: Store, decision: Decision, revision: nat)
    requires LikeWithdrawn(s, decision, revision)
    ensures Apply(s, Accept(revision)).Some?
    ensures LikeWithdrawn(Next(s, Accept(revision)), Accepted, revision + 1)
  {
    var none: seq<Id> := [];
    assert (set a <- none) == {};
    assert IsLatest(s, 8);
  }

  lemma ReachedAudit() returns (commands: seq<Command>)
    ensures Run(EMPTY, commands) == Audited()
  {
    PrepareRuns();
    RunSnoc(PREPARE, DRAFT);
    DraftRuns();
    commands := PREPARE + [DRAFT] + [AUDIT];
    RunSnoc(PREPARE + [DRAFT], AUDIT);
    AuditRuns();
  }

  lemma Reached() returns (commands: seq<Command>)
    ensures Run(EMPTY, commands) == Proposed().(proposals := map[8 := Row(Rejected, Withdrawn, 2)])
  {
    var audited := ReachedAudit();
    RunSnoc(audited, PROPOSE);
    ProposeRuns();
    commands := audited + [PROPOSE] + [REJECT];
    RunSnoc(audited + [PROPOSE], REJECT);
    RejectRuns();
  }

  // The judgment passed its audit; a second audit that finds nothing is refused, at the current revision.
  lemma ReauditIsRefused() returns (commands: seq<Command>)
    ensures Run(EMPTY, commands) == Audited() && Audited().judgments[3].status == Passed(Acceptable)
    ensures !Audited().judgments[3].superseded && AuditCandidates(Audited(), 3, []) == Some([])
    ensures Apply(Run(EMPTY, commands), RunAudit(3, Audited().judgments[3].revision, [])).None?
  {
    commands := ReachedAudit();
    CleanPrecheck();
  }

  // Rejecting a proposal does not keep it from being accepted, nor does accepting it.
  lemma WithdrawnIsAcceptedTwice() returns (commands: seq<Command>)
    ensures 8 in Run(EMPTY, commands).proposals && Run(EMPTY, commands).proposals[8].lifecycle == Withdrawn
    ensures Apply(Run(EMPTY, commands), Accept(2)).Some?
    ensures Apply(Next(Run(EMPTY, commands), Accept(2)), Accept(3)).Some?
  {
    commands := Reached();
    AcceptRuns(Run(EMPTY, commands), Rejected, 2);
    AcceptRuns(Next(Run(EMPTY, commands), Accept(2)), Accepted, 3);
  }
}
