/**
  What every run of decision commands keeps, and what therefore holds of every accepted disposition.
 */
module DecisionSafety {
  import opened Options
  import opened Decisions

  // ----- the invariant, one table at a time

  // `a` is the last audit of judgment `j`.
  ghost predicate LatestAudit(audits: map<Id, Audit>, j: Id, a: Id) {
    a in audits && audits[a].judgment == j && forall b <- audits :: audits[b].judgment == j ==> b <= a
  }

  // A judgment carries the result of its last audit, and a fitness of that audit unless it was blocked.
  ghost predicate JudgmentKept(row: Judgment, j: Id, audits: map<Id, Audit>, issuedBy: map<Id, Id>) {
    match row.currentAudit
    case None => row.status == Pending && row.fitness == None && forall b <- audits :: audits[b].judgment != j
    case Some(a) =>
      && LatestAudit(audits, j, a)
      && row.status == Passed(audits[a].gate)
      && (row.fitness.Some? <==> audits[a].gate != Blocked)
      && (row.fitness.Some? ==> row.fitness.value in issuedBy && issuedBy[row.fitness.value] == a)
  }

  // A fitness allows what the gate of the audit that issued it allows.
  ghost predicate FitnessKept(row: Fitness, f: Id, audits: map<Id, Audit>, issuedBy: map<Id, Id>) {
    && f in issuedBy && issuedBy[f] in audits
    && audits[issuedBy[f]].judgment == row.judgment
    && row.allowed == AllowedUses(audits[issuedBy[f]].gate)
    && row.forbidden == FORBIDDEN_USES
  }

  // An acceptable audit has no findings, and one that is not blocked only warnings.
  ghost predicate GateKept(gate: Gate, a: Id, findings: map<Id, Finding>) {
    && (gate == Acceptable ==> forall f <- findings :: findings[f].audit != a)
    && (gate != Blocked ==> forall f <- findings :: findings[f].audit == a ==> findings[f].severity == Warning)
  }

  ghost predicate ProposalKept(row: Proposal, judgments: map<Id, Judgment>, fitnesses: map<Id, Fitness>,
                               issuedBy: map<Id, Id>)
  {
    && row.judgment in judgments && judgments[row.judgment].currentAudit.Some?
    && row.fitness in fitnesses && fitnesses[row.fitness].judgment == row.judgment && row.fitness in issuedBy
  }

  ghost predicate Below<T>(rows: map<Id, T>, next: Id) {
    forall id <- rows :: id < next
  }

  ghost predicate IdsBelow(s: Store) {
    && Below(s.judgments, s.next) && Below(s.audits, s.next) && Below(s.findings, s.next)
    && Below(s.fitnesses, s.next) && Below(s.issuedBy, s.next) && Below(s.proposals, s.next)
  }

  ghost predicate JudgmentsKept(judgments: map<Id, Judgment>, audits: map<Id, Audit>, issuedBy: map<Id, Id>) {
    forall j <- judgments :: JudgmentKept(judgments[j], j, audits, issuedBy)
  }

  ghost predicate AuditsKept(audits: map<Id, Audit>, judgments: map<Id, Judgment>, findings: map<Id, Finding>) {
    && (forall a <- audits :: audits[a].judgment in judgments && GateKept(audits[a].gate, a, findings))
    && (forall f <- findings :: findings[f].audit in audits)
  }

  ghost predicate FitnessesKept(fitnesses: map<Id, Fitness>, audits: map<Id, Audit>, issuedBy: map<Id, Id>) {
    forall f <- fitnesses :: FitnessKept(fitnesses[f], f, audits, issuedBy)
  }

  ghost predicate ProposalsKept(
    proposals: map<Id, Proposal>, judgments: map<Id, Judgment>, fitnesses: map<Id, Fitness>, issuedBy: map<Id, Id>)
  {
    forall p <- proposals :: ProposalKept(proposals[p], judgments, fitnesses, issuedBy)
  }

  ghost predicate Inv(s: Store) {
    && IdsBelow(s)
    && JudgmentsKept(s.judgments, s.audits, s.issuedBy)
    && AuditsKept(s.audits, s.judgments, s.findings)
    && FitnessesKept(s.fitnesses, s.audits, s.issuedBy)
    && ProposalsKept(s.proposals, s.judgments, s.fitnesses, s.issuedBy)
  }

  // ----- an audit keeps the invariant

  lemma OtherJudgment(row: Judgment, k: Id, audits: map<Id, Audit>, issuedBy: map<Id, Id>, a: Id, audit: Audit,
                      issued: map<Id, Id>)
    requires JudgmentKept(row, k, audits, issuedBy) && a !in audits && audit.judgment != k
    requires forall f <- issuedBy :: f in issued && issued[f] == issuedBy[f]
    ensures JudgmentKept(row, k, audits[a := audit], issued)
  {
  }

  lemma AuditedJudgment(row: Judgment, j: Id, audits: map<Id, Audit>, a: Id, audit: Audit, issued: map<Id, Id>)
    requires Below(audits, a) && audit.judgment == j && row.currentAudit == Some(a) && row.status == Passed(audit.gate)
    requires row.fitness.Some? <==> audit.gate != Blocked
    requires row.fitness.Some? ==> row.fitness.value in issued && issued[row.fitness.value] == a
    ensures JudgmentKept(row, j, audits[a := audit], issued)
  {
  }

  lemma {:induction false} BlockingRow(a: Id, first: Id, candidates: seq<Candidate>, c: Candidate)
    requires c in candidates && c.severity == Blocking
    ensures exists f <- FindingRows(a, first, candidates) :: FindingRows(a, first, candidates)[f].severity == Blocking
  {
    var i :| 0 <= i < |candidates| && candidates[i] == c;
    RowsAreCandidates(a, first, candidates);
    assert first + i in FindingRows(a, first, candidates);
  }

  // The gate of an audit: acceptable exactly without findings, blocked exactly with a blocking one.
  lemma {:induction false} GateOfRows(a: Id, first: Id, candidates: seq<Candidate>)
    ensures GateOf(candidates) == Acceptable <==> FindingRows(a, first, candidates) == map[]
    ensures GateOf(candidates) == Blocked
            <==> exists f <- FindingRows(a, first, candidates) ::
                   FindingRows(a, first, candidates)[f].severity == Blocking
    ensures GateKept(GateOf(candidates), a, FindingRows(a, first, candidates))
  {
    var rows := FindingRows(a, first, candidates);
    RowsAreCandidates(a, first, candidates);
    if c :| c in candidates && c.severity == Blocking {
      BlockingRow(a, first, candidates, c);
    }
    forall f | f in rows
      ensures rows[f].severity == candidates[f - first].severity && candidates[f - first] in candidates
    {
    }
    if candidates != [] {
      assert first in rows;
      assert candidates[0].severity in {Warning, Blocking};
    }
  }

  // The tables a committed audit writes.
  ghost predicate Audited(s: Store, t: Store, j: Id, candidates: seq<Candidate>, a: Id, fitness: Id, gate: Gate) {
    && j in s.judgments && a == s.next && fitness == a + 1 + |candidates| && gate == GateOf(candidates)
    && t.next == fitness + 1 && a in t.audits
    && t.audits == s.audits[a := t.audits[a]] && t.audits[a].judgment == j && t.audits[a].gate == gate
    && t.findings == s.findings + FindingRows(a, a + 1, candidates)
    && t.fitnesses == (if gate == Blocked then s.fitnesses
                       else s.fitnesses[fitness := Fitness(j, AllowedUses(gate), FORBIDDEN_USES)])
    && t.issuedBy == (if gate == Blocked then s.issuedBy else s.issuedBy[fitness := a])
    && t.judgments.Keys == s.judgments.Keys && (forall k <- s.judgments :: k != j ==> t.judgments[k] == s.judgments[k])
    && t.judgments[j].status == Passed(gate) && t.judgments[j].currentAudit == Some(a)
    && t.judgments[j].fitness == (if gate == Blocked then None else Some(fitness))
    && t.proposals == s.proposals
  }

  lemma StoredIsAudited(s: Store, j: Id, revision: nat, gate: Gate, ids: seq<Id>, candidates: seq<Candidate>, a: Id,
                        fitness: Id)
    requires j in s.judgments && a == s.next && fitness == a + 1 + |candidates| && gate == GateOf(candidates)
    ensures Audited(s, StoredAudit(s, j, revision, gate, ids, candidates, fitness), j, candidates, a, fitness, gate)
  {
  }

  lemma CandidatesAre(s: Store, j: Id, semantic: seq<Candidate>)
    requires j in s.judgments && AuditCandidates(s, j, semantic).Some?
    ensures LinksKnown(s.uses, s.judgments[j].claims)
    ensures AuditCandidates(s, j, semantic).value == Precheck(s.uses, s.judgments[j].claims) + semantic
  {
  }

  lemma AuditStores(s: Store, j: Id, revision: nat, semantic: seq<Candidate>)
    returns (gate: Gate, ids: seq<Id>, candidates: seq<Candidate>, fitness: Id)
    requires AuditStep(s, j, revision, semantic).Some?
    ensures j in s.judgments && fitness == s.next + 1 + |candidates| && gate == GateOf(candidates)
    ensures LinksKnown(s.uses, s.judgments[j].claims)
    ensures candidates == Precheck(s.uses, s.judgments[j].claims) + semantic
    ensures AuditStep(s, j, revision, semantic).value == StoredAudit(s, j, revision, gate, ids, candidates, fitness)
  {
    candidates := AuditCandidates(s, j, semantic).value;
    CandidatesAre(s, j, semantic);
    gate, ids, fitness := GateOf(candidates), FindingIds(s.next + 1, |candidates|), s.next + 1 + |candidates|;
  }

  lemma AuditKeepsJudgments(s: Store, t: Store, j: Id, candidates: seq<Candidate>, a: Id, fitness: Id, gate: Gate)
    requires Inv(s) && Audited(s, t, j, candidates, a, fitness, gate)
    ensures JudgmentsKept(t.judgments, t.audits, t.issuedBy)
  {
    assert Below(s.issuedBy, fitness);
    forall k | k in t.judgments ensures JudgmentKept(t.judgments[k], k, t.audits, t.issuedBy) {
      if k == j {
        AuditedJudgment(t.judgments[j], j, s.audits, a, t.audits[a], t.issuedBy);
      } else {
        OtherJudgment(s.judgments[k], k, s.audits, s.issuedBy, a, t.audits[a], t.issuedBy);
      }
    }
  }

  lemma AuditsGrow(
    audits: map<Id, Audit>, judgments: map<Id, Judgment>, findings: map<Id, Finding>,
    a: Id, audit: Audit, rows: map<Id, Finding>, after: map<Id, Judgment>)
    requires AuditsKept(audits, judgments, findings) && after.Keys == judgments.Keys && audit.judgment in judgments
    requires a !in audits && findings.Keys !! rows.Keys && GateKept(audit.gate, a, rows)
    requires forall f <- rows :: rows[f].audit == a
    ensures AuditsKept(audits[a := audit], after, findings + rows)
  {
    forall b | b in audits ensures GateKept(audits[b].gate, b, findings + rows) {
    }
  }

  lemma {:induction false} FreshRows(findings: map<Id, Finding>, a: Id, candidates: seq<Candidate>)
    requires Below(findings, a)
    ensures findings.Keys !! FindingRows(a, a + 1, candidates).Keys
    ensures Below(findings + FindingRows(a, a + 1, candidates), a + 2 + |candidates|)
  {
    var rows := FindingRows(a, a + 1, candidates);
    RowsAreCandidates(a, a + 1, candidates);
    forall f | f in findings + rows ensures f < a + 2 + |candidates| {
      assert f in findings || f in rows;
    }
  }

  lemma AuditKeepsAudits(s: Store, t: Store, j: Id, candidates: seq<Candidate>, a: Id, fitness: Id, gate: Gate)
    requires Inv(s) && Audited(s, t, j, candidates, a, fitness, gate)
    ensures AuditsKept(t.audits, t.judgments, t.findings)
  {
    FreshRows(s.findings, a, candidates);
    RowsAreCandidates(a, a + 1, candidates);
    GateOfRows(a, a + 1, candidates);
    AuditsGrow(s.audits, s.judgments, s.findings, a, t.audits[a], FindingRows(a, a + 1, candidates), t.judgments);
  }

  lemma AuditKeepsIds(s: Store, t: Store, j: Id, candidates: seq<Candidate>, a: Id, fitness: Id, gate: Gate)
    requires IdsBelow(s) && Audited(s, t, j, candidates, a, fitness, gate)
    ensures IdsBelow(t)
  {
    FreshRows(s.findings, a, candidates);
    assert Below(t.proposals, t.next) by {
      forall p | p in t.proposals ensures p < t.next {
        assert p in s.proposals;
      }
    }
    assert Below(t.judgments, t.next) by {
      forall k | k in t.judgments ensures k < t.next {
        assert k in s.judgments;
      }
    }
  }

  lemma AuditKeepsFitnesses(s: Store, t: Store, j: Id, candidates: seq<Candidate>, a: Id, fitness: Id, gate: Gate)
    requires Inv(s) && Audited(s, t, j, candidates, a, fitness, gate)
    ensures FitnessesKept(t.fitnesses, t.audits, t.issuedBy)
  {
    assert fitness !in s.issuedBy;
    forall f | f in t.fitnesses ensures FitnessKept(t.fitnesses[f], f, t.audits, t.issuedBy) {
      assert f == fitness || FitnessKept(s.fitnesses[f], f, s.audits, s.issuedBy);
    }
  }

  lemma AuditKeepsProposals(s: Store, t: Store, j: Id, candidates: seq<Candidate>, a: Id, fitness: Id, gate: Gate)
    requires ProposalsKept(s.proposals, s.judgments, s.fitnesses, s.issuedBy) && Below(s.fitnesses, s.next)
    requires Audited(s, t, j, candidates, a, fitness, gate)
    ensures ProposalsKept(t.proposals, t.judgments, t.fitnesses, t.issuedBy)
  {
  }

  // ----- a draft keeps the invariant

  // What a committed draft looks like.
  ghost predicate Drafted(s: Store, t: Store, before: map<Id, Judgment>, row: Judgment) {
    && t.audits == s.audits && t.findings == s.findings && t.fitnesses == s.fitnesses && t.issuedBy == s.issuedBy
    && t.proposals == s.proposals && s.next < t.next
    && t.judgments == before[s.next := row] && before.Keys == s.judgments.Keys
    && row.status == Pending && row.currentAudit == None && row.fitness == None
    && forall j <- before :: before[j] == s.judgments[j].(superseded := before[j].superseded)
  }

  lemma AddedIsDrafted(s: Store, run: Id, row: Judgment, next: Id) returns (before: map<Id, Judgment>)
    requires run in s.currentJudgment ==> s.currentJudgment[run] in s.judgments
    requires row.status == Pending && row.currentAudit == None && row.fitness == None && s.next < next
    ensures s.next in AddJudgment(s, run, row, next).judgments
    ensures Drafted(s, AddJudgment(s, run, row, next), before, AddJudgment(s, run, row, next).judgments[s.next])
  {
    if run in s.currentJudgment {
      var previous := s.currentJudgment[run];
      before := s.judgments[previous := s.judgments[previous].(superseded := true)];
    } else {
      before := s.judgments;
    }
  }

  lemma DraftedKept(s: Store, t: Store, before: map<Id, Judgment>, row: Judgment)
    requires Inv(s) && Drafted(s, t, before, row)
    ensures Inv(t)
  {
    forall j | j in before ensures JudgmentKept(before[j], j, t.audits, t.issuedBy) {
      assert JudgmentKept(s.judgments[j], j, s.audits, s.issuedBy);
    }
    assert JudgmentKept(row, s.next, t.audits, t.issuedBy);
    assert IdsBelow(t);
  }

  lemma AddKept(s: Store, run: Id, row: Judgment, next: Id)
    requires Inv(s) && (run in s.currentJudgment ==> s.currentJudgment[run] in s.judgments)
    requires row.status == Pending && row.currentAudit == None && row.fitness == None && s.next < next
    ensures Inv(AddJudgment(s, run, row, next))
  {
    var before := AddedIsDrafted(s, run, row, next);
    DraftedKept(s, AddJudgment(s, run, row, next), before, AddJudgment(s, run, row, next).judgments[s.next]);
  }

  lemma DraftAdds(s: Store, run: Id, revision: nat, candidates: seq<ClaimCandidate>) returns (row: Judgment, next: Id)
    requires DraftStep(s, run, revision, candidates).Some?
    ensures run in s.currentJudgment ==> s.currentJudgment[run] in s.judgments
    ensures row.status == Pending && row.currentAudit == None && row.fitness == None && s.next < next
    ensures row.run == run && !row.superseded && row.version == 1 && row.previous == None
    ensures run in s.runs && row.researchCase == s.runs[run].researchCase
    ensures UsableClaims(s.uses, run, candidates) && row.claims == ClaimsOf(s.uses, s.next + 1, candidates)
    ensures DraftStep(s, run, revision, candidates).value == AddJudgment(s, run, row, next)
  {
    row := Judgment(s.runs[run].researchCase, run, 1, 1, false, ClaimsOf(s.uses, s.next + 1, candidates), Pending,
                    None, None, None);
    next := s.next + 1 + |candidates|;
  }

  lemma DraftKept(s: Store, run: Id, revision: nat, candidates: seq<ClaimCandidate>)
    requires Inv(s) && DraftStep(s, run, revision, candidates).Some?
    ensures Inv(DraftStep(s, run, revision, candidates).value)
  {
    var row, next := DraftAdds(s, run, revision, candidates);
    AddKept(s, run, row, next);
  }

  // ----- proposals keep the invariant

  ghost predicate SameAuditSide(s: Store, t: Store) {
    && t.judgments == s.judgments && t.audits == s.audits && t.findings == s.findings
    && t.fitnesses == s.fitnesses && t.issuedBy == s.issuedBy && s.next <= t.next
  }

  lemma ProposalSideKept(s: Store, t: Store)
    requires Inv(s) && SameAuditSide(s, t) && Below(t.proposals, t.next)
    requires ProposalsKept(t.proposals, t.judgments, t.fitnesses, t.issuedBy)
    ensures Inv(t)
  {
  }

  lemma CanProposeIsKept(s: Store, j: Id, fitness: Id, kind: Kind, acks: seq<Id>)
    requires JudgmentsKept(s.judgments, s.audits, s.issuedBy) && FitnessesKept(s.fitnesses, s.audits, s.issuedBy)
    requires CanPropose(s, j, Some(fitness), kind, acks)
    ensures s.judgments[j].currentAudit.Some? && fitness in s.issuedBy
            && s.issuedBy[fitness] == s.judgments[j].currentAudit.value
    ensures FitnessKept(s.fitnesses[fitness], fitness, s.audits, s.issuedBy)
    ensures LatestAudit(s.audits, j, s.issuedBy[fitness])
  {
    assert JudgmentKept(s.judgments[j], j, s.audits, s.issuedBy);
  }

  lemma PutProposal(s: Store, t: Store, p: Id, row: Proposal)
    requires Inv(s) && SameAuditSide(s, t) && p < t.next && t.proposals == s.proposals[p := row]
    requires ProposalKept(row, s.judgments, s.fitnesses, s.issuedBy)
    ensures Inv(t)
  {
    ProposalSideKept(s, t);
  }

  lemma CreateKept(s: Store, j: Id, revision: nat, kind: Kind, terms: Terms, acks: seq<Id>)
    requires Inv(s) && CreateProposalStep(s, j, revision, kind, terms, acks).Some?
    ensures Inv(CreateProposalStep(s, j, revision, kind, terms, acks).value)
  {
  }

  lemma AdjustedKept(s: Store, p: Id, kind: Kind, terms: Terms)
    requires Inv(s) && p in s.proposals
    ensures Inv(AdjustedStore(s, p, kind, terms))
  {
    var t := AdjustedStore(s, p, kind, terms);
    var left := s.proposals[p].(lifecycle := Superseded);
    var middle := s.(proposals := s.proposals[p := left]);
    assert ProposalKept(s.proposals[p], s.judgments, s.fitnesses, s.issuedBy);
    PutProposal(s, middle, p, left);
    PutProposal(middle, t, s.next, t.proposals[s.next]);
  }

  lemma RejectKept(s: Store, p: Id, revision: nat)
    requires Inv(s) && RejectStep(s, p, revision).Some?
    ensures Inv(RejectStep(s, p, revision).value)
  {
    var t := RejectStep(s, p, revision).value;
    assert ProposalKept(s.proposals[p], s.judgments, s.fitnesses, s.issuedBy);
    PutProposal(s, t, p, t.proposals[p]);
  }

  lemma AcceptedKept(s: Store, p: Id)
    requires Inv(s) && p in s.proposals && s.proposals[p].researchCase in s.cases
    ensures Inv(AcceptedStore(s, p))
  {
    var t := AcceptedStore(s, p);
    assert ProposalKept(s.proposals[p], s.judgments, s.fitnesses, s.issuedBy);
    PutProposal(s, t, p, t.proposals[p]);
  }

  lemma AuditedKept(s: Store, t: Store, j: Id, candidates: seq<Candidate>, a: Id, fitness: Id, gate: Gate)
    requires Inv(s) && Audited(s, t, j, candidates, a, fitness, gate)
    ensures Inv(t)
  {
    AuditKeepsJudgments(s, t, j, candidates, a, fitness, gate);
    AuditKeepsAudits(s, t, j, candidates, a, fitness, gate);
    AuditKeepsFitnesses(s, t, j, candidates, a, fitness, gate);
    AuditKeepsProposals(s, t, j, candidates, a, fitness, gate);
    AuditKeepsIds(s, t, j, candidates, a, fitness, gate);
  }

  lemma AuditKept(s: Store, j: Id, revision: nat, semantic: seq<Candidate>)
    requires Inv(s) && AuditStep(s, j, revision, semantic).Some?
    ensures Inv(AuditStep(s, j, revision, semantic).value)
  {
    var gate, ids, candidates, fitness := AuditStores(s, j, revision, semantic);
    StoredIsAudited(s, j, revision, gate, ids, candidates, s.next, fitness);
    AuditedKept(s, StoredAudit(s, j, revision, gate, ids, candidates, fitness), j, candidates, s.next, fitness, gate);
  }

  lemma InvKept(s: Store, c: Command)
    requires Inv(s)
    ensures Inv(Next(s, c))
  {
    if Apply(s, c).Some? {
      match c
      case CreateDraft(run, revision, claims) => DraftKept(s, run, revision, claims);
      case RunAudit(j, revision, semantic) => AuditKept(s, j, revision, semantic);
      case CreateProposal(j, revision, kind, terms, acks) => CreateKept(s, j, revision, kind, terms, acks);
      case AdjustProposal(p, revision, kind, terms) => AdjustedKept(s, p, kind, terms);
      case RejectProposal(p, revision) => RejectKept(s, p, revision);
      case AcceptProposal(p, revision, j, fitness, acks) => AcceptedKept(s, p);
      case _ => ProposalSideKept(s, Next(s, c));
    }
  }

  lemma {:induction false} InvRun(s: Store, commands: seq<Command>)
    requires Inv(s)
    ensures Inv(Run(s, commands))
  {
    if commands != [] {
      InvRun(s, commands[..|commands| - 1]);
      InvKept(Run(s, commands[..|commands| - 1]), commands[|commands| - 1]);
    }
  }
}
