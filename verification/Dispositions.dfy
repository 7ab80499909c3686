/**
  What holds of every accepted disposition, of every proposal made before a later audit, and what
  accepting does not look at.
 */
module Dispositions {
  import opened Options
  import opened Decisions
  import opened DecisionSafety

  // ----- accepted dispositions are justified by the last audit

  // Disposition `d` rests on the last audit of its judgment: that audit was not blocked, it issued the
  // fitness named by `d`, and all its warnings are acknowledged by `list`.
  ghost predicate Justified(s: Store, d: Disposition, list: seq<Id>) {
    && d.fitness in s.issuedBy
    && LatestAudit(s.audits, d.judgment, s.issuedBy[d.fitness])
    && s.audits[s.issuedBy[d.fitness]].gate != Blocked
    && (forall f <- s.findings :: s.findings[f].audit == s.issuedBy[d.fitness] ==> Acknowledged(s.acks, list, f))
    && d.kind != ProceedToAction
    && (d.kind == Observe ==> forall f <- s.findings :: s.findings[f].audit != s.issuedBy[d.fitness])
  }

  lemma AcceptIsSafe(s: Store, p: Id, revision: nat, j: Id, fitness: Id, acks: seq<Id>) returns (d: Disposition)
    requires Inv(s) && AcceptStep(s, p, revision, j, fitness, acks).Some?
    ensures AcceptStep(s, p, revision, j, fitness, acks).value.dispositions == s.dispositions + [d]
    ensures d.source == p && d.judgment == j && d.fitness == fitness && d.kind == s.proposals[p].kind
    ensures Justified(s, d, acks)
  {
    d := AcceptStep(s, p, revision, j, fitness, acks).value.dispositions[|s.dispositions|];
  }

  ghost predicate IsAccept(c: Command, d: Disposition) {
    c.AcceptProposal? && c.proposal == d.source && c.judgment == d.judgment && c.fitness == d.fitness
  }

  lemma AuditDisposesNothing(s: Store, j: Id, revision: nat, semantic: seq<Candidate>)
    requires AuditStep(s, j, revision, semantic).Some?
    ensures AuditStep(s, j, revision, semantic).value.dispositions == s.dispositions
  {
    var gate, ids, candidates, fitness := AuditStores(s, j, revision, semantic);
  }

  lemma DraftDisposesNothing(s: Store, run: Id, revision: nat, claims: seq<ClaimCandidate>)
    requires DraftStep(s, run, revision, claims).Some?
    ensures DraftStep(s, run, revision, claims).value.dispositions == s.dispositions
  {
    var row, next := DraftAdds(s, run, revision, claims);
  }

  lemma OnlyAcceptDisposes(s: Store, c: Command)
    requires !c.AcceptProposal?
    ensures Next(s, c).dispositions == s.dispositions
  {
    if Apply(s, c).Some? {
      match c
      case CreateDraft(run, revision, claims) => DraftDisposesNothing(s, run, revision, claims);
      case RunAudit(j, revision, semantic) => AuditDisposesNothing(s, j, revision, semantic);
      case _ =>
    }
  }

  // A command leaves the dispositions as they are, or is an accept that adds one justified disposition.
  lemma NextDisposition(s: Store, c: Command)
    requires Inv(s)
    ensures Next(s, c).dispositions == s.dispositions || AddsJustified(s, c, Next(s, c).dispositions)
  {
    if c.AcceptProposal? && Apply(s, c).Some? {
      var d := AcceptIsSafe(s, c.proposal, c.expectedRevision, c.judgment, c.fitness, c.acks);
      assert Next(s, c).dispositions[..|s.dispositions|] == s.dispositions;
    } else if !c.AcceptProposal? {
      OnlyAcceptDisposes(s, c);
    }
  }

  ghost predicate AddsJustified(s: Store, c: Command, after: seq<Disposition>) {
    && |after| == |s.dispositions| + 1 && after[..|s.dispositions|] == s.dispositions
    && IsAccept(c, after[|s.dispositions|]) && Apply(s, c).Some? && Justified(s, after[|s.dispositions|], c.acks)
  }

  // Every disposition of a run was made by one accept command of that run, and was justified there.
  lemma {:induction false} DispositionsAreSafe(commands: seq<Command>, k: nat) returns (n: nat)
    requires k < |Run(EMPTY, commands).dispositions|
    ensures n < |commands| && |Run(EMPTY, commands[..n]).dispositions| == k
    ensures IsAccept(commands[n], Run(EMPTY, commands).dispositions[k])
    ensures Apply(Run(EMPTY, commands[..n]), commands[n]).Some?
    ensures Justified(Run(EMPTY, commands[..n]), Run(EMPTY, commands).dispositions[k], commands[n].acks)
  {
    var before, last := commands[..|commands| - 1], commands[|commands| - 1];
    InvRun(EMPTY, before);
    NextDisposition(Run(EMPTY, before), last);
    if k < |Run(EMPTY, before).dispositions| {
      n := DispositionsAreSafe(before, k);
      assert before[..n] == commands[..n];
    } else {
      n := |commands| - 1;
    }
  }

  // ----- proposals made before a later audit

  // The judgment of proposal `p` was audited again after the audit that issued the fitness of `p`.
  ghost predicate Outdated(s: Store, p: Id) {
    && p in s.proposals && s.proposals[p].judgment in s.judgments && s.proposals[p].fitness in s.issuedBy
    && s.judgments[s.proposals[p].judgment].currentAudit.Some?
    && s.issuedBy[s.proposals[p].fitness] < s.judgments[s.proposals[p].judgment].currentAudit.value
  }

  lemma OutdatedIsDead(s: Store, p: Id, revision: nat, j: Id, fitness: Id, acks: seq<Id>, kind: Kind, terms: Terms)
    requires Inv(s) && Outdated(s, p)
    ensures AcceptStep(s, p, revision, j, fitness, acks).None?
    ensures AdjustStep(s, p, revision, kind, terms).None?
  {
  }

  // What a step may do to the parts of the store that decide whether a proposal is outdated.
  ghost predicate IssuedMoved(before: map<Id, Id>, after: map<Id, Id>) {
    forall f <- before :: f in after && after[f] == before[f]
  }

  ghost predicate ProposalsMoved(before: map<Id, Proposal>, after: map<Id, Proposal>) {
    forall p <- before :: p in after && after[p].judgment == before[p].judgment && after[p].fitness == before[p].fitness
  }

  ghost predicate AuditNotBefore(a: Option<Id>, b: Option<Id>) {
    a.Some? ==> b.Some? && a.value <= b.value
  }

  ghost predicate JudgmentsMoved(before: map<Id, Judgment>, after: map<Id, Judgment>) {
    forall j <- before :: j in after && AuditNotBefore(before[j].currentAudit, after[j].currentAudit)
  }

  ghost predicate Moved(s: Store, t: Store) {
    && IssuedMoved(s.issuedBy, t.issuedBy) && ProposalsMoved(s.proposals, t.proposals)
    && JudgmentsMoved(s.judgments, t.judgments)
  }

  lemma AuditMoves(s: Store, t: Store, j: Id, candidates: seq<Candidate>, a: Id, fitness: Id, gate: Gate)
    requires Inv(s) && Audited(s, t, j, candidates, a, fitness, gate)
    ensures Moved(s, t)
    ensures s.judgments[j].currentAudit.Some? ==> s.judgments[j].currentAudit.value < a
  {
    assert JudgmentKept(s.judgments[j], j, s.audits, s.issuedBy);
  }

  lemma AuditStepMoves(s: Store, j: Id, revision: nat, semantic: seq<Candidate>)
    requires Inv(s) && AuditStep(s, j, revision, semantic).Some?
    ensures Moved(s, AuditStep(s, j, revision, semantic).value)
  {
    var gate, ids, candidates, fitness := AuditStores(s, j, revision, semantic);
    StoredIsAudited(s, j, revision, gate, ids, candidates, s.next, fitness);
    AuditMoves(s, StoredAudit(s, j, revision, gate, ids, candidates, fitness), j, candidates, s.next, fitness, gate);
  }

  lemma PutMoves(s: Store, t: Store, p: Id, row: Proposal)
    requires t.proposals == s.proposals[p := row] && t.issuedBy == s.issuedBy && t.judgments == s.judgments
    requires p in s.proposals ==> row.judgment == s.proposals[p].judgment && row.fitness == s.proposals[p].fitness
    ensures Moved(s, t)
  {
  }

  lemma AdjustMoves(s: Store, p: Id, kind: Kind, terms: Terms)
    requires Below(s.proposals, s.next) && p in s.proposals
    ensures Moved(s, AdjustedStore(s, p, kind, terms))
  {
    var t := AdjustedStore(s, p, kind, terms);
    assert s.next !in s.proposals;
    forall q | q in s.proposals
      ensures q in t.proposals && t.proposals[q].judgment == s.proposals[q].judgment
      ensures t.proposals[q].fitness == s.proposals[q].fitness
    {
    }
  }

  lemma DraftMoves(s: Store, run: Id, revision: nat, claims: seq<ClaimCandidate>)
    requires Below(s.judgments, s.next) && DraftStep(s, run, revision, claims).Some?
    ensures Moved(s, DraftStep(s, run, revision, claims).value)
  {
    var row, next := DraftAdds(s, run, revision, claims);
  }

  lemma CreateMoves(s: Store, row: Proposal)
    requires Below(s.proposals, s.next)
    ensures Moved(s, AddProposal(s, row))
  {
    PutMoves(s, AddProposal(s, row), s.next + 1, row);
  }

  lemma RejectMoves(s: Store, p: Id, revision: nat)
    requires RejectStep(s, p, revision).Some?
    ensures Moved(s, RejectStep(s, p, revision).value)
  {
    var t := RejectStep(s, p, revision).value;
    PutMoves(s, t, p, t.proposals[p]);
  }

  lemma AcceptMoves(s: Store, p: Id)
    requires p in s.proposals && s.proposals[p].researchCase in s.cases
    ensures Moved(s, AcceptedStore(s, p))
  {
    PutMoves(s, AcceptedStore(s, p), p, AcceptedStore(s, p).proposals[p]);
  }

  lemma NextMoves(s: Store, c: Command)
    requires Inv(s)
    ensures Moved(s, Next(s, c))
  {
    if Apply(s, c).Some? {
      match c
      case CreateDraft(run, revision, claims) => DraftMoves(s, run, revision, claims);
      case RunAudit(j, revision, semantic) => AuditStepMoves(s, j, revision, semantic);
      case CreateProposal(j, _, kind, terms, acks) => CreateMoves(s, FirstVersion(s, j, kind, terms, acks));
      case AdjustProposal(p, _, kind, terms) => AdjustMoves(s, p, kind, terms);
      case RejectProposal(p, revision) => RejectMoves(s, p, revision);
      case AcceptProposal(p, _, _, _, _) => AcceptMoves(s, p);
      case OpenCase => case OpenRun(_) => case MoveRun(_, _) => case RecordUse(_, _, _) => case Acknowledge(_, _, _) =>
    }
  }

  lemma {:induction false} OutdatedForever(s: Store, commands: seq<Command>, p: Id)
    requires Inv(s) && Outdated(s, p)
    ensures Inv(Run(s, commands)) && Outdated(Run(s, commands), p)
  {
    if commands != [] {
      var before, last := commands[..|commands| - 1], commands[|commands| - 1];
      OutdatedForever(s, before, p);
      InvKept(Run(s, before), last);
      NextMoves(Run(s, before), last);
    }
  }

  // The fitness of a proposal was issued by an audit that is already in the store.
  ghost predicate IssuedBefore(s: Store, p: Id, a: Id) {
    p in s.proposals && s.proposals[p].fitness in s.issuedBy && s.issuedBy[s.proposals[p].fitness] < a
  }

  lemma AuditedOutdates(s: Store, t: Store, j: Id, candidates: seq<Candidate>, a: Id, fitness: Id, gate: Gate, p: Id)
    requires Audited(s, t, j, candidates, a, fitness, gate) && Below(s.issuedBy, fitness)
    requires IssuedBefore(s, p, a) && s.proposals[p].judgment == j
    ensures Outdated(t, p)
  {
  }

  lemma AuditOutdates(s: Store, j: Id, revision: nat, semantic: seq<Candidate>, p: Id)
    requires AuditStep(s, j, revision, semantic).Some? && Below(s.issuedBy, s.next)
    requires IssuedBefore(s, p, s.next) && s.proposals[p].judgment == j
    ensures Outdated(AuditStep(s, j, revision, semantic).value, p)
  {
    var gate, ids, candidates, fitness := AuditStores(s, j, revision, semantic);
    StoredIsAudited(s, j, revision, gate, ids, candidates, s.next, fitness);
    assert Below(s.issuedBy, fitness);
    AuditedOutdates(s, StoredAudit(s, j, revision, gate, ids, candidates, fitness), j, candidates, s.next,
                    fitness, gate, p);
  }

  // After any later audit of its judgment a proposal can never again be accepted or adjusted.
  lemma {:induction false} NoProposalSurvivesReaudit(
    before: seq<Command>, audit: Command, after: seq<Command>, p: Id,
    revision: nat, fitness: Id, acks: seq<Id>, kind: Kind, terms: Terms)
    requires audit.RunAudit? && Apply(Run(EMPTY, before), audit).Some?
    requires p in Run(EMPTY, before).proposals && Run(EMPTY, before).proposals[p].judgment == audit.judgment
    ensures AcceptStep(Run(Next(Run(EMPTY, before), audit), after), p, revision, audit.judgment, fitness, acks).None?
    ensures AdjustStep(Run(Next(Run(EMPTY, before), audit), after), p, revision, kind, terms).None?
  {
    var s := Run(EMPTY, before);
    InvRun(EMPTY, before);
    AuditOutdates(s, audit.judgment, audit.expectedRevision, audit.semantic, p);
    InvKept(s, audit);
    OutdatedForever(Next(s, audit), after, p);
    OutdatedIsDead(Run(Next(s, audit), after), p, revision, audit.judgment, fitness, acks, kind, terms);
  }

  // ----- what auditing again can do

  // Once the request is in order, an audit commits exactly when it blocks or the judgment has no fitness;
  // so a judgment whose last audit passed can only be audited again to be blocked.
  lemma ReauditOnlyBlocks(s: Store, j: Id, semantic: seq<Candidate>)
    requires Inv(s) && j in s.judgments && !s.judgments[j].superseded && AuditCandidates(s, j, semantic).Some?
    ensures AuditStep(s, j, s.judgments[j].revision, semantic).Some?
            <==> (GateOf(AuditCandidates(s, j, semantic).value) == Blocked
                  || s.judgments[j].status in {Pending, Passed(Blocked)})
  {
    assert JudgmentKept(s.judgments[j], j, s.audits, s.issuedBy);
  }

  // ----- what accepting does not look at

  // Two stores that differ only in how proposal `p` was decided.
  ghost predicate SameButDecision(s: Store, t: Store, p: Id) {
    && p in s.proposals && p in t.proposals
    && t.proposals[p] == s.proposals[p].(
         decision := t.proposals[p].decision, lifecycle := t.proposals[p].lifecycle,
         revision := t.proposals[p].revision)
    && t.currentProposal == s.currentProposal && t.judgments == s.judgments && t.audits == s.audits
    && t.findings == s.findings && t.fitnesses == s.fitnesses && t.acks == s.acks && t.cases.Keys == s.cases.Keys
  }

  lemma AcceptIgnoresDecision(s: Store, t: Store, p: Id, j: Id, fitness: Id, acks: seq<Id>)
    requires SameButDecision(s, t, p)
    ensures AcceptStep(s, p, s.proposals[p].revision, j, fitness, acks).Some?
            <==> AcceptStep(t, p, t.proposals[p].revision, j, fitness, acks).Some?
  {
  }
}
