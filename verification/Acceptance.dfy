/**
  When a proposal can be accepted, in every store that a run of commands reaches: exactly while it is the
  newest version of its series and its judgment still carries the fitness it was made with.  How the
  proposal was decided before does not matter.
 */
module Acceptance {
  import opened Options
  import opened Decisions
  import opened DecisionSafety

  // ----- what every stored proposal keeps

  ghost predicate KindFits(row: Proposal, cases: map<Id, Case>, fitnesses: map<Id, Fitness>) {
    && row.researchCase in cases && TermsFit(row.kind, row.terms)
    && row.fitness in fitnesses
    && UseOf(row.kind) in fitnesses[row.fitness].allowed && UseOf(row.kind) !in fitnesses[row.fitness].forbidden
  }

  // `list` acknowledges every warning of audit `a`.
  ghost predicate AllAcknowledged(findings: map<Id, Finding>, a: Id, acks: map<Id, Acknowledgement>, list: seq<Id>) {
    forall f <- findings :: findings[f].audit == a && findings[f].severity == Warning ==> Acknowledged(acks, list, f)
  }

  // The acknowledgements of a proposal cover the audit that issued its fitness.
  ghost predicate AcksFit(
    row: Proposal, findings: map<Id, Finding>, issuedBy: map<Id, Id>, acks: map<Id, Acknowledgement>)
  {
    && Distinct(row.acks) && AllOfJudgment(acks, row.acks, row.judgment)
    && row.fitness in issuedBy && AllAcknowledged(findings, issuedBy[row.fitness], acks, row.acks)
  }

  ghost predicate Fits(s: Store, row: Proposal) {
    && KindFits(row, s.cases, s.fitnesses) && AcksFit(row, s.findings, s.issuedBy, s.acks)
    && row.series < s.next
  }

  ghost predicate CasesKnown(s: Store) {
    && (forall r <- s.runs :: s.runs[r].researchCase in s.cases)
    && (forall j <- s.judgments :: s.judgments[j].researchCase in s.cases)
  }

  ghost predicate AllFit(s: Store) {
    forall p <- s.proposals :: Fits(s, s.proposals[p])
  }

  ghost predicate Ready(s: Store) {
    Inv(s) && Below(s.acks, s.next) && CasesKnown(s) && AllFit(s)
  }

  // ----- rows are never taken back

  ghost predicate Kept<T(!new)>(before: map<Id, T>, after: map<Id, T>) {
    forall id <- before :: id in after && after[id] == before[id]
  }

  // Findings are added only under new audits.
  ghost predicate FindingsGrow(before: map<Id, Finding>, after: map<Id, Finding>, next: Id) {
    Kept(before, after) && forall f <- after :: f !in before ==> next <= after[f].audit
  }

  ghost predicate Grows(s: Store, t: Store) {
    && s.cases.Keys <= t.cases.Keys && Kept(s.fitnesses, t.fitnesses) && Kept(s.issuedBy, t.issuedBy)
    && Kept(s.acks, t.acks) && FindingsGrow(s.findings, t.findings, s.next) && s.next <= t.next
  }

  lemma GrownAcks(acks: map<Id, Acknowledgement>, after: map<Id, Acknowledgement>, list: seq<Id>, f: Id)
    requires Kept(acks, after) && Acknowledged(acks, list, f)
    ensures Acknowledged(after, list, f)
  {
    var i :| 0 <= i < |list| && list[i] in acks && acks[list[i]].finding == f;
    assert list[i] in after;
  }

  lemma FitsLater(s: Store, t: Store, row: Proposal)
    requires Fits(s, row) && Grows(s, t) && s.issuedBy[row.fitness] < s.next
    ensures Fits(t, row)
  {
    forall f | f in t.findings && t.findings[f].audit == t.issuedBy[row.fitness] && t.findings[f].severity == Warning
      ensures Acknowledged(t.acks, row.acks, f)
    {
      assert f in s.findings;
      GrownAcks(s.acks, t.acks, row.acks, f);
    }
  }

  lemma IssuedBelow(s: Store, p: Id)
    requires Inv(s) && p in s.proposals && Fits(s, s.proposals[p])
    ensures s.issuedBy[s.proposals[p].fitness] < s.next
  {
    assert FitnessKept(s.fitnesses[s.proposals[p].fitness], s.proposals[p].fitness, s.audits, s.issuedBy);
  }

  // When the proposals stay as they are, so does what they keep.
  lemma AllFitLater(s: Store, t: Store)
    requires Inv(s) && AllFit(s) && Grows(s, t) && t.proposals == s.proposals
    ensures AllFit(t)
  {
    forall p | p in t.proposals ensures Fits(t, t.proposals[p]) {
      IssuedBelow(s, p);
      FitsLater(s, t, s.proposals[p]);
    }
  }

  // ----- an audit

  // What an audit of judgment `j` leaves alone.
  ghost predicate AuditLeaves(s: Store, t: Store) {
    && t.cases == s.cases && t.runs == s.runs && t.acks == s.acks
    && t.currentProposal == s.currentProposal && t.judgments.Keys == s.judgments.Keys
    && forall j <- s.judgments :: t.judgments[j].researchCase == s.judgments[j].researchCase
  }

  lemma StoredLeaves(s: Store, j: Id, revision: nat, gate: Gate, ids: seq<Id>, candidates: seq<Candidate>, fitness: Id)
    requires j in s.judgments
    ensures AuditLeaves(s, StoredAudit(s, j, revision, gate, ids, candidates, fitness))
  {
  }

  lemma AuditGrows(s: Store, t: Store, j: Id, candidates: seq<Candidate>, a: Id, fitness: Id, gate: Gate)
    requires IdsBelow(s) && Audited(s, t, j, candidates, a, fitness, gate) && AuditLeaves(s, t)
    ensures Grows(s, t)
  {
    FreshRows(s.findings, a, candidates);
    RowsAreCandidates(a, a + 1, candidates);
  }

  lemma AuditIsAudited(s: Store, j: Id, revision: nat, semantic: seq<Candidate>, t: Store)
    returns (candidates: seq<Candidate>, fitness: Id, gate: Gate)
    requires AuditStep(s, j, revision, semantic) == Some(t)
    ensures Audited(s, t, j, candidates, s.next, fitness, gate) && AuditLeaves(s, t)
  {
    var ids;
    gate, ids, candidates, fitness := AuditStores(s, j, revision, semantic);
    StoredIsAudited(s, j, revision, gate, ids, candidates, s.next, fitness);
    StoredLeaves(s, j, revision, gate, ids, candidates, fitness);
  }

  lemma AuditReady(s: Store, j: Id, revision: nat, semantic: seq<Candidate>, t: Store)
    requires Ready(s) && Inv(t) && AuditStep(s, j, revision, semantic) == Some(t)
    ensures Ready(t)
  {
    var candidates, fitness, gate := AuditIsAudited(s, j, revision, semantic, t);
    AuditGrows(s, t, j, candidates, s.next, fitness, gate);
    AllFitLater(s, t);
  }

  // ----- a draft

  lemma DraftReady(s: Store, run: Id, revision: nat, claims: seq<ClaimCandidate>, t: Store)
    requires Ready(s) && Inv(t) && DraftStep(s, run, revision, claims) == Some(t)
    ensures Ready(t)
  {
    var row, next := DraftAdds(s, run, revision, claims);
    AllFitLater(s, t);
  }

  // ----- proposals

  // What a command on proposals leaves alone.
  ghost predicate ProposalCommandLeaves(s: Store, t: Store) {
    && t.fitnesses == s.fitnesses && t.issuedBy == s.issuedBy && t.findings == s.findings && t.acks == s.acks
    && t.runs == s.runs && t.judgments == s.judgments && s.cases.Keys <= t.cases.Keys && s.next <= t.next
  }

  lemma PutReady(s: Store, t: Store, p: Id, row: Proposal)
    requires Ready(s) && Inv(t) && ProposalCommandLeaves(s, t) && Fits(t, row)
    requires t.proposals == s.proposals[p := row]
    ensures Ready(t)
  {
    forall q | q in t.proposals ensures Fits(t, t.proposals[q]) {
      if q != p {
        IssuedBelow(s, q);
        FitsLater(s, t, s.proposals[q]);
      }
    }
  }

  // A row that passes the checks of a proposal fits: its fitness was issued by the audit whose warnings
  // these checks look at.
  lemma ProposableFits(s: Store, t: Store, row: Proposal)
    requires Inv(s) && ProposalCommandLeaves(s, t) && row.researchCase in s.cases && row.series < t.next
    requires CanPropose(s, row.judgment, Some(row.fitness), row.kind, row.acks)
    requires TermsFit(row.kind, row.terms) && Distinct(row.acks)
    ensures Fits(t, row)
  {
    CanProposeIsKept(s, row.judgment, row.fitness, row.kind, row.acks);
    forall f | f in s.findings && s.findings[f].audit == s.issuedBy[row.fitness] && s.findings[f].severity == Warning
      ensures Acknowledged(s.acks, row.acks, f)
    {
      assert f in RequiredWarnings(s, row.judgment);
    }
  }

  lemma CreateReady(s: Store, j: Id, revision: nat, kind: Kind, terms: Terms, acks: seq<Id>)
    requires Ready(s) && CreateAllowed(s, j, revision, kind, terms, acks)
    requires Inv(AddProposal(s, FirstVersion(s, j, kind, terms, acks)))
    ensures Ready(AddProposal(s, FirstVersion(s, j, kind, terms, acks)))
  {
    var row := FirstVersion(s, j, kind, terms, acks);
    var t := AddProposal(s, row);
    ProposableFits(s, t, row);
    PutReady(s, t, s.next + 1, row);
  }

  lemma AdjustReady(s: Store, p: Id, revision: nat, kind: Kind, terms: Terms)
    requires Ready(s) && AdjustAllowed(s, p, revision, kind, terms) && Inv(AdjustedStore(s, p, kind, terms))
    ensures Ready(AdjustedStore(s, p, kind, terms))
  {
    var t := AdjustedStore(s, p, kind, terms);
    var left := s.proposals[p].(lifecycle := Superseded);
    var middle := s.(proposals := s.proposals[p := left]);
    assert Fits(s, s.proposals[p]);
    PutProposal(s, middle, p, left);
    PutReady(s, middle, p, left);
    ProposableFits(s, t, t.proposals[s.next]);
    PutReady(middle, t, s.next, t.proposals[s.next]);
  }

  lemma RejectReady(s: Store, p: Id, revision: nat, t: Store)
    requires Ready(s) && Inv(t) && RejectStep(s, p, revision) == Some(t)
    ensures Ready(t)
  {
    assert Fits(s, s.proposals[p]);
    PutReady(s, t, p, t.proposals[p]);
  }

  lemma AcceptReady(s: Store, p: Id)
    requires Ready(s) && p in s.proposals && s.proposals[p].researchCase in s.cases && Inv(AcceptedStore(s, p))
    ensures Ready(AcceptedStore(s, p))
  {
    var t := AcceptedStore(s, p);
    assert Fits(s, s.proposals[p]);
    PutReady(s, t, p, t.proposals[p]);
  }

  // ----- every command

  ghost predicate IsSimple(c: Command) {
    c.OpenCase? || c.OpenRun? || c.MoveRun? || c.RecordUse? || c.Acknowledge?
  }

  lemma SimpleGrows(s: Store, c: Command)
    requires IsSimple(c) && Below(s.acks, s.next)
    ensures Grows(s, Next(s, c)) && Next(s, c).proposals == s.proposals && Below(Next(s, c).acks, Next(s, c).next)
  {
  }

  lemma SimpleKnows(s: Store, c: Command)
    requires IsSimple(c) && CasesKnown(s)
    ensures CasesKnown(Next(s, c))
  {
  }

  lemma SimpleReady(s: Store, c: Command)
    requires Ready(s) && IsSimple(c) && Inv(Next(s, c))
    ensures Ready(Next(s, c))
  {
    SimpleGrows(s, c);
    SimpleKnows(s, c);
    AllFitLater(s, Next(s, c));
  }

  lemma ReadyKept(s: Store, c: Command)
    requires Ready(s)
    ensures Ready(Next(s, c))
  {
    InvKept(s, c);
    if Apply(s, c).Some? {
      match c
      case CreateDraft(run, revision, claims) => DraftReady(s, run, revision, claims, Next(s, c));
      case RunAudit(j, revision, semantic) => AuditReady(s, j, revision, semantic, Next(s, c));
      case CreateProposal(j, revision, kind, terms, acks) => CreateReady(s, j, revision, kind, terms, acks);
      case AdjustProposal(p, revision, kind, terms) => AdjustReady(s, p, revision, kind, terms);
      case RejectProposal(p, revision) => RejectReady(s, p, revision, Next(s, c));
      case AcceptProposal(p, _, _, _, _) => AcceptReady(s, p);
      case _ => SimpleReady(s, c);
    }
  }

  lemma {:induction false} ReadyRun(s: Store, commands: seq<Command>)
    requires Ready(s)
    ensures Ready(Run(s, commands))
  {
    if commands != [] {
      ReadyRun(s, commands[..|commands| - 1]);
      ReadyKept(Run(s, commands[..|commands| - 1]), commands[|commands| - 1]);
    }
  }

  // ----- exactly when a proposal can be accepted or adjusted

  predicate CarriesFitness(judgments: map<Id, Judgment>, j: Id, fitness: Id) {
    j in judgments && judgments[j].fitness == Some(fitness)
  }

  // The newest version of its series, on a judgment that still carries the fitness it was made with.
  predicate Open(s: Store, p: Id) {
    && p in s.proposals && IsLatest(s, p)
    && CarriesFitness(s.judgments, s.proposals[p].judgment, s.proposals[p].fitness)
  }

  predicate SameIds(a: seq<Id>, b: seq<Id>) {
    (forall id <- a :: id in b) && (forall id <- b :: id in a)
  }

  lemma SameAcks(acks: map<Id, Acknowledgement>, list: seq<Id>, other: seq<Id>, j: Id)
    requires SameIds(list, other) && AllOfJudgment(acks, list, j)
    ensures AllOfJudgment(acks, other, j)
  {
    assert forall i :: 0 <= i < |other| ==> other[i] in list;
  }

  lemma SameAcknowledged(acks: map<Id, Acknowledgement>, list: seq<Id>, other: seq<Id>, f: Id)
    requires SameIds(list, other) && Acknowledged(acks, list, f)
    ensures Acknowledged(acks, other, f)
  {
    var i :| 0 <= i < |list| && list[i] in acks && acks[list[i]].finding == f;
    assert list[i] in other;
  }

  // An open proposal passes every check but those of the kind that is asked for.
  lemma OpenCanPropose(s: Store, p: Id, kind: Kind, acks: seq<Id>)
    requires Ready(s) && Open(s, p) && SameIds(s.proposals[p].acks, acks)
    ensures s.proposals[p].fitness in s.fitnesses
    ensures CanPropose(s, s.proposals[p].judgment, Some(s.proposals[p].fitness), kind, acks)
            <==> UseOf(kind) in s.fitnesses[s.proposals[p].fitness].allowed
                 && UseOf(kind) !in s.fitnesses[s.proposals[p].fitness].forbidden
  {
    var row := s.proposals[p];
    assert Fits(s, row);
    assert JudgmentKept(s.judgments[row.judgment], row.judgment, s.audits, s.issuedBy);
    assert ProposalKept(row, s.judgments, s.fitnesses, s.issuedBy);
    SameAcks(s.acks, row.acks, acks, row.judgment);
    forall f | f in RequiredWarnings(s, row.judgment) ensures Acknowledged(s.acks, acks, f) {
      SameAcknowledged(s.acks, row.acks, acks, f);
    }
  }

  // A request to accept proposal `p` that names it as it is stored.
  predicate NamesProposal(row: Proposal, revision: nat, j: Id, fitness: Id, acks: seq<Id>) {
    revision == row.revision && j == row.judgment && fitness == row.fitness && Distinct(acks) && SameIds(acks, row.acks)
  }

  lemma SameSets(a: seq<Id>, b: seq<Id>)
    ensures SameIds(a, b) <==> (set id <- a) == (set id <- b)
  {
    var left, right := set id <- a, set id <- b;
    assert forall id :: (id in left <==> id in a) && (id in right <==> id in b);
  }

  lemma ReadyAccepts(s: Store, p: Id, revision: nat, j: Id, fitness: Id, acks: seq<Id>)
    requires Ready(s) && p in s.proposals
    ensures AcceptStep(s, p, revision, j, fitness, acks).Some?
            <==> Open(s, p) && NamesProposal(s.proposals[p], revision, j, fitness, acks)
  {
    assert Fits(s, s.proposals[p]);
    SameSets(acks, s.proposals[p].acks);
    if Open(s, p) && SameIds(acks, s.proposals[p].acks) {
      OpenCanPropose(s, p, s.proposals[p].kind, acks);
    }
  }

  lemma EmptyReady()
    ensures Ready(EMPTY)
  {
  }

  // In every store that commands reach, a request that names a proposal as it is stored is accepted exactly
  // while the proposal is open, and no other request is.
  lemma {:induction false} AcceptedExactly(commands: seq<Command>, p: Id, revision: nat, j: Id, fitness: Id,
                                           acks: seq<Id>)
    requires p in Run(EMPTY, commands).proposals
    ensures AcceptStep(Run(EMPTY, commands), p, revision, j, fitness, acks).Some?
            <==> Open(Run(EMPTY, commands), p)
                 && NamesProposal(Run(EMPTY, commands).proposals[p], revision, j, fitness, acks)
  {
    EmptyReady();
    ReadyRun(EMPTY, commands);
    ReadyAccepts(Run(EMPTY, commands), p, revision, j, fitness, acks);
  }

  // Its own acknowledgements always name a proposal, so it can be accepted whatever was decided on it.
  lemma {:induction false} AcceptedAsStored(commands: seq<Command>, p: Id, row: Proposal)
    requires p in Run(EMPTY, commands).proposals && row == Run(EMPTY, commands).proposals[p]
    ensures row.judgment in Run(EMPTY, commands).judgments
    ensures AcceptStep(Run(EMPTY, commands), p, row.revision, row.judgment, row.fitness, row.acks).Some?
            <==> IsLatest(Run(EMPTY, commands), p)
                 && Run(EMPTY, commands).judgments[row.judgment].fitness == Some(row.fitness)
  {
    EmptyReady();
    ReadyRun(EMPTY, commands);
    assert Fits(Run(EMPTY, commands), row);
    assert ProposalKept(row, Run(EMPTY, commands).judgments, Run(EMPTY, commands).fitnesses,
                        Run(EMPTY, commands).issuedBy);
    ReadyAccepts(Run(EMPTY, commands), p, row.revision, row.judgment, row.fitness, row.acks);
  }

  // Unlike accepting, adjusting does look at whether the proposal was withdrawn.
  lemma {:induction false} AdjustedExactly(commands: seq<Command>, p: Id, revision: nat, kind: Kind, terms: Terms,
                                           row: Proposal)
    requires p in Run(EMPTY, commands).proposals && row == Run(EMPTY, commands).proposals[p]
    ensures row.fitness in Run(EMPTY, commands).fitnesses
    ensures AdjustStep(Run(EMPTY, commands), p, revision, kind, terms).Some?
            <==> Open(Run(EMPTY, commands), p) && revision == row.revision && row.lifecycle == Current
                 && TermsFit(kind, terms)
                 && UseOf(kind) in Run(EMPTY, commands).fitnesses[row.fitness].allowed - FORBIDDEN_USES
  {
    var s := Run(EMPTY, commands);
    EmptyReady();
    ReadyRun(EMPTY, commands);
    assert Fits(s, row);
    assert FitnessKept(s.fitnesses[row.fitness], row.fitness, s.audits, s.issuedBy);
    if Open(s, p) {
      OpenCanPropose(s, p, kind, row.acks);
    }
  }

  // ----- what ends a proposal

  // The command audits the judgment of proposal `p`, or replaces `p` by a newer version.
  predicate Ends(s: Store, c: Command, p: Id) {
    && Apply(s, c).Some? && p in s.proposals
    && ((c.RunAudit? && c.judgment == s.proposals[p].judgment) || (c.AdjustProposal? && c.proposal == p))
  }

  // A proposal, its judgment, its fitness and its series are older than the next id.
  ghost predicate Placed(s: Store, p: Id) {
    && p in s.proposals && p < s.next && s.proposals[p].series < s.next
    && s.proposals[p].fitness < s.next && s.proposals[p].judgment < s.next
  }

  lemma ReadyPlaced(s: Store, p: Id)
    requires Ready(s) && p in s.proposals
    ensures Placed(s, p)
  {
    assert Fits(s, s.proposals[p]);
    assert ProposalKept(s.proposals[p], s.judgments, s.fitnesses, s.issuedBy);
  }

  lemma AuditCloses(s: Store, j: Id, revision: nat, semantic: seq<Candidate>, t: Store, p: Id)
    requires Placed(s, p) && AuditStep(s, j, revision, semantic) == Some(t)
    ensures p in t.proposals
    ensures Open(t, p) <==> Open(s, p) && s.proposals[p].judgment != j
  {
    var candidates, fitness, gate := AuditIsAudited(s, j, revision, semantic, t);
  }

  // A draft adds a judgment and supersedes one; it changes the fitness of none.
  lemma AddKeepsFitness(s: Store, run: Id, row: Judgment, next: Id, j: Id, fitness: Id)
    requires run in s.currentJudgment ==> s.currentJudgment[run] in s.judgments
    requires j < s.next
    ensures CarriesFitness(AddJudgment(s, run, row, next).judgments, j, fitness)
            <==> CarriesFitness(s.judgments, j, fitness)
  {
  }

  lemma DraftKeepsOpen(s: Store, run: Id, revision: nat, claims: seq<ClaimCandidate>, t: Store, p: Id)
    requires Placed(s, p) && DraftStep(s, run, revision, claims) == Some(t)
    ensures p in t.proposals
    ensures Open(t, p) <==> Open(s, p)
  {
    var row, next := DraftAdds(s, run, revision, claims);
    AddKeepsFitness(s, run, row, next, s.proposals[p].judgment, s.proposals[p].fitness);
  }

  lemma CreateKeepsOpen(s: Store, row: Proposal, p: Id)
    requires Placed(s, p)
    ensures p in AddProposal(s, row).proposals
    ensures Open(AddProposal(s, row), p) <==> Open(s, p)
  {
  }

  lemma AdjustCloses(s: Store, q: Id, kind: Kind, terms: Terms, p: Id)
    requires Placed(s, p) && q in s.proposals && IsLatest(s, q)
    ensures p in AdjustedStore(s, q, kind, terms).proposals
    ensures Open(AdjustedStore(s, q, kind, terms), p) <==> Open(s, p) && p != q
  {
  }

  // Deciding on a proposal changes none of what keeps a proposal open.
  lemma DecidedKeepsOpen(s: Store, t: Store, q: Id, row: Proposal, p: Id)
    requires p in s.proposals && q in s.proposals && t.proposals == s.proposals[q := row]
    requires row.series == s.proposals[q].series && row.judgment == s.proposals[q].judgment
    requires row.fitness == s.proposals[q].fitness
    requires t.currentProposal == s.currentProposal && t.judgments == s.judgments
    ensures p in t.proposals
    ensures Open(t, p) <==> Open(s, p)
  {
  }

  lemma SimpleKeepsOpen(s: Store, c: Command, p: Id)
    requires p in s.proposals && IsSimple(c)
    ensures p in Next(s, c).proposals
    ensures Open(Next(s, c), p) <==> Open(s, p)
  {
  }

  lemma OpenStep(s: Store, c: Command, p: Id)
    requires Placed(s, p)
    ensures p in Next(s, c).proposals
    ensures Open(Next(s, c), p) <==> Open(s, p) && !Ends(s, c, p)
  {
    if Apply(s, c).Some? {
      match c
      case CreateDraft(run, revision, claims) => DraftKeepsOpen(s, run, revision, claims, Next(s, c), p);
      case RunAudit(j, revision, semantic) => AuditCloses(s, j, revision, semantic, Next(s, c), p);
      case CreateProposal(j, _, kind, terms, acks) => CreateKeepsOpen(s, FirstVersion(s, j, kind, terms, acks), p);
      case AdjustProposal(q, _, kind, terms) => AdjustCloses(s, q, kind, terms, p);
      case RejectProposal(q, _) => DecidedKeepsOpen(s, Next(s, c), q, Next(s, c).proposals[q], p);
      case AcceptProposal(q, _, _, _, _) => DecidedKeepsOpen(s, Next(s, c), q, Next(s, c).proposals[q], p);
      case _ => SimpleKeepsOpen(s, c, p);
    }
  }

  // A proposal stays in the store.
  lemma {:induction false} StaysStored(s: Store, commands: seq<Command>, p: Id)
    requires Ready(s) && p in s.proposals
    ensures Ready(Run(s, commands)) && p in Run(s, commands).proposals
  {
    if commands != [] {
      var before := commands[..|commands| - 1];
      StaysStored(s, before, p);
      ReadyKept(Run(s, before), commands[|commands| - 1]);
      ReadyPlaced(Run(s, before), p);
      OpenStep(Run(s, before), commands[|commands| - 1], p);
    }
  }

  // No command of the list ends proposal `p`, each in the store it runs on.
  predicate NeverEnded(s: Store, commands: seq<Command>, p: Id) {
    commands == []
    || (NeverEnded(s, commands[..|commands| - 1], p)
        && !Ends(Run(s, commands[..|commands| - 1]), commands[|commands| - 1], p))
  }

  // Over any further run an open proposal stays open exactly until a command ends it.
  lemma {:induction false} OpenUntilEnded(s: Store, commands: seq<Command>, p: Id)
    requires Ready(s) && p in s.proposals
    ensures Open(Run(s, commands), p) <==> Open(s, p) && NeverEnded(s, commands, p)
  {
    if commands != [] {
      var before := commands[..|commands| - 1];
      OpenUntilEnded(s, before, p);
      StaysStored(s, before, p);
      ReadyPlaced(Run(s, before), p);
      OpenStep(Run(s, before), commands[|commands| - 1], p);
    }
  }

  // A proposal is open as soon as a command stores it.
  lemma CreatedIsOpen(s: Store, j: Id, revision: nat, kind: Kind, terms: Terms, acks: seq<Id>)
    requires CreateProposalStep(s, j, revision, kind, terms, acks).Some?
    ensures Open(CreateProposalStep(s, j, revision, kind, terms, acks).value, s.next + 1)
  {
  }

  lemma AdjustedIsOpen(s: Store, p: Id, revision: nat, kind: Kind, terms: Terms)
    requires AdjustStep(s, p, revision, kind, terms).Some? && p < s.next
    ensures Open(AdjustStep(s, p, revision, kind, terms).value, s.next)
  {
  }

  // ----- accepting what was decided before

  // A request that names proposal `p` as it is stored is accepted.
  predicate CanBeAccepted(s: Store, p: Id) {
    && p in s.proposals
    && AcceptStep(s, p, s.proposals[p].revision, s.proposals[p].judgment, s.proposals[p].fitness,
                  s.proposals[p].acks).Some?
  }

  lemma ReadyAccepted(s: Store, p: Id)
    requires Ready(s)
    ensures CanBeAccepted(s, p) <==> Open(s, p)
  {
    if p in s.proposals {
      var row := s.proposals[p];
      assert Fits(s, row);
      ReadyAccepts(s, p, row.revision, row.judgment, row.fitness, row.acks);
    }
  }

  // The converse of `NoProposalSurvivesReaudit`: nothing but an audit of its judgment or a newer version
  // takes away that an open proposal can be accepted.
  lemma {:induction false} AcceptableUntilEnded(before: seq<Command>, after: seq<Command>, p: Id)
    requires p in Run(EMPTY, before).proposals
    ensures CanBeAccepted(Run(Run(EMPTY, before), after), p)
            <==> CanBeAccepted(Run(EMPTY, before), p) && NeverEnded(Run(EMPTY, before), after, p)
  {
    var s := Run(EMPTY, before);
    EmptyReady();
    ReadyRun(EMPTY, before);
    ReadyRun(s, after);
    OpenUntilEnded(s, after, p);
    ReadyAccepted(s, p);
    ReadyAccepted(Run(s, after), p);
  }

  lemma {:induction false} DecidedAccepted(s: Store, t: Store, p: Id, row: Proposal, after: seq<Command>)
    requires Ready(s) && Ready(t) && p in s.proposals && t.proposals == s.proposals[p := row]
    requires row.series == s.proposals[p].series && row.judgment == s.proposals[p].judgment
    requires row.fitness == s.proposals[p].fitness
    requires t.currentProposal == s.currentProposal && t.judgments == s.judgments
    ensures CanBeAccepted(Run(t, after), p) <==> Open(s, p) && NeverEnded(t, after, p)
  {
    DecidedKeepsOpen(s, t, p, row, p);
    ReadyRun(t, after);
    OpenUntilEnded(t, after, p);
    ReadyAccepted(Run(t, after), p);
  }

  // An accepted proposal can be accepted again, and again, until a command ends it.
  lemma {:induction false} AcceptedAgain(before: seq<Command>, c: Command, after: seq<Command>, t: Store)
    requires c.AcceptProposal? && Apply(Run(EMPTY, before), c) == Some(t)
    ensures CanBeAccepted(Run(t, after), c.proposal) <==> NeverEnded(t, after, c.proposal)
  {
    var s := Run(EMPTY, before);
    EmptyReady();
    ReadyRun(EMPTY, before);
    ReadyKept(s, c);
    ReadyAccepts(s, c.proposal, c.expectedRevision, c.judgment, c.fitness, c.acks);
    DecidedAccepted(s, t, c.proposal, t.proposals[c.proposal], after);
  }

  // A withdrawn proposal can be accepted exactly when it was open as it was withdrawn, until a command ends it.
  lemma {:induction false} RejectedCanBeAccepted(before: seq<Command>, c: Command, after: seq<Command>, t: Store)
    requires c.RejectProposal? && Apply(Run(EMPTY, before), c) == Some(t)
    ensures t.proposals[c.proposal].lifecycle == Withdrawn
    ensures CanBeAccepted(Run(t, after), c.proposal)
            <==> Open(Run(EMPTY, before), c.proposal) && NeverEnded(t, after, c.proposal)
  {
    var s := Run(EMPTY, before);
    EmptyReady();
    ReadyRun(EMPTY, before);
    ReadyKept(s, c);
    DecidedAccepted(s, t, c.proposal, t.proposals[c.proposal], after);
  }
}
