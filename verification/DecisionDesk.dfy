/**
  The command handlers for judgments and dispositions, writing their tables row by row.

  Each method does to the store what `Decisions.Apply` says of its command; a method that fails leaves
  the store as it found it.
 */
module DecisionDesk {
  import opened Options
  import opened Decisions

  lemma {:induction false} PrecheckStep(uses: map<Id, EvidenceUse>, claims: seq<Claim>, i: nat,
                                        findings: seq<Candidate>)
    requires i < |claims| && LinksKnown(uses, claims)
    ensures LinksKnown(uses, claims[i..]) && LinksKnown(uses, claims[i + 1..]) && Known(uses, claims[i].links)
    ensures findings + Precheck(uses, claims[i..])
            == (findings + CoreFindings(claims[i]) + LinkFindings(uses, claims[i].id, claims[i].links))
              + Precheck(uses, claims[i + 1..])
  {
    assert claims[i..][0] == claims[i] && claims[i..][1..] == claims[i + 1..];
    assert claims[i] in claims;
    Regroup(findings, CoreFindings(claims[i]), LinkFindings(uses, claims[i].id, claims[i].links),
            Precheck(uses, claims[i + 1..]));
  }

  lemma Regroup(a: seq<Candidate>, b: seq<Candidate>, c: seq<Candidate>, d: seq<Candidate>)
    ensures a + ((b + c) + d) == (a + b + c) + d
  {
  }

  // The findings no reader is needed for; fails on a link whose evidence use is missing.
  method DeterministicPrecheck(uses: map<Id, EvidenceUse>, claims: seq<Claim>)
    returns (ok: bool, findings: seq<Candidate>)
    ensures ok <==> LinksKnown(uses, claims)
    ensures ok ==> findings == Precheck(uses, claims)
  {
    ok, findings := true, [];
    for i := 0 to |claims|
      invariant forall k :: 0 <= k < i ==> Known(uses, claims[k].links)
      invariant LinksKnown(uses, claims) ==>
        LinksKnown(uses, claims[i..]) && findings + Precheck(uses, claims[i..]) == Precheck(uses, claims)
    {
      var own := CoreClaimFindings(claims[i]);
      var known, invalid := InvalidLinks(uses, claims[i].id, claims[i].links);
      if !known {
        assert claims[i] in claims;
        return false, [];
      }
      if LinksKnown(uses, claims) {
        PrecheckStep(uses, claims, i, findings);
      }
      findings := findings + own + invalid;
    }
  }

  method CoreClaimFindings(c: Claim) returns (findings: seq<Candidate>)
    ensures findings == CoreFindings(c)
  {
    findings := [];
    if c.core {
      if c.links == [] {
        findings := findings + [Candidate({c.id}, Blocking)];
      }
      if !c.hasRationale {
        findings := findings + [Candidate({c.id}, Blocking)];
      }
      if c.evidence in {Unassessed, Insufficient, Contradicted} {
        findings := findings + [Candidate({c.id}, Blocking)];
      } else if c.evidence in {PartiallySupported, Mixed} {
        findings := findings + [Candidate({c.id}, Warning)];
      }
    }
  }

  method InvalidLinks(uses: map<Id, EvidenceUse>, claim: Id, links: seq<Id>)
    returns (ok: bool, findings: seq<Candidate>)
    ensures ok <==> Known(uses, links)
    ensures ok ==> findings == LinkFindings(uses, claim, links)
  {
    ok, findings := true, [];
    for i := 0 to |links|
      invariant Known(uses, links[..i])
      invariant Known(uses, links)
                ==> findings + LinkFindings(uses, claim, links[i..]) == LinkFindings(uses, claim, links)
    {
      assert links[i..][0] == links[i] && links[i..][1..] == links[i + 1..];
      if links[i] !in uses {
        return false, [];
      }
      if !uses[links[i]].valid {
        findings := findings + [Candidate({claim}, Blocking)];
      }
      assert links[..i + 1] == links[..i] + [links[i]];
    }
    assert links[..|links|] == links;
  }

  // The links a claim keeps: usable ones only, and one for each evidence unit.
  method ClaimLinks(uses: map<Id, EvidenceUse>, run: Id, links: seq<Id>) returns (ok: bool, kept: seq<Id>)
    ensures ok <==> UsableLinks(uses, run, links)
    ensures ok ==> kept == KeptLinks(uses, links, {})
  {
    ok, kept := true, [];
    var seen: set<Id> := {};
    for i := 0 to |links|
      invariant UsableLinks(uses, run, links[..i])
      invariant UsableLinks(uses, run, links) ==> kept + KeptLinks(uses, links[i..], seen) == KeptLinks(uses, links, {})
    {
      assert links[i..][0] == links[i] && links[i..][1..] == links[i + 1..];
      if links[i] !in uses || uses[links[i]].run != run || !uses[links[i]].valid {
        return false, [];
      }
      var unit := uses[links[i]].unit;
      if unit !in seen {
        seen, kept := seen + {unit}, kept + [links[i]];
      }
      assert links[..i + 1] == links[..i] + [links[i]];
    }
    assert links[..|links|] == links;
  }

  // The claims of a draft, numbered in order.
  method DraftClaims(uses: map<Id, EvidenceUse>, run: Id, first: Id, candidates: seq<ClaimCandidate>)
    returns (ok: bool, claims: seq<Claim>)
    ensures ok <==> UsableClaims(uses, run, candidates)
    ensures ok ==> claims == ClaimsOf(uses, first, candidates)
  {
    ok, claims := true, [];
    for i := 0 to |candidates|
      invariant |claims| == i
      invariant forall k :: 0 <= k < i ==>
                  UsableClaim(uses, run, candidates[k]) && claims[k] == ClaimOf(uses, first + k, candidates[k])
    {
      if !WellShaped(candidates[i]) {
        assert candidates[i] in candidates;
        return false, [];
      }
      var usable, links := ClaimLinks(uses, run, candidates[i].links);
      if !usable || (DemandsEvidence(candidates[i].role) && links == []) {
        assert candidates[i] in candidates;
        if usable {
          FirstLinkIsKept(uses, candidates[i].links);
        }
        return false, [];
      }
      claims := claims + [Claim(first + i, candidates[i].core, true, candidates[i].evidence, links)];
    }
  }

  lemma {:induction false} FirstLinkIsKept(uses: map<Id, EvidenceUse>, links: seq<Id>)
    requires Known(uses, links)
    ensures KeptLinks(uses, links, {}) == [] <==> links == []
  {
  }

  // The finding rows of an audit, added one by one.
  method InsertFindings(findings: map<Id, Finding>, audit: Id, first: Id, candidates: seq<Candidate>)
    returns (rows: map<Id, Finding>)
    ensures rows == findings + FindingRows(audit, first, candidates)
  {
    rows := findings;
    for i := 0 to |candidates|
      invariant rows == findings + FindingRows(audit, first, candidates[..i])
    {
      assert candidates[..i + 1][..i] == candidates[..i];
      rows := rows[first + i := Finding(audit, candidates[i].claims, candidates[i].severity)];
    }
    assert candidates[..|candidates|] == candidates;
  }

  class Desk {
    var store: Store

    constructor ()
      ensures store == EMPTY
    {
      store := EMPTY;
    }

    method CreateDraft(run: Id, expectedRevision: nat, candidates: seq<ClaimCandidate>) returns (ok: bool)
      modifies this
      ensures ok <==> DraftStep(old(store), run, expectedRevision, candidates).Some?
      ensures store == Next(old(store), Command.CreateDraft(run, expectedRevision, candidates))
    {
      var allowed, claims := CheckDraft(run, expectedRevision, candidates);
      if !allowed {
        return false;
      }
      var row := Judgment(store.runs[run].researchCase, run, 1, 1, false, claims, Pending, None, None, None);
      InsertJudgment(run, row, store.next + 1 + |candidates|);
      return true;
    }

    method CheckDraft(run: Id, expectedRevision: nat, candidates: seq<ClaimCandidate>)
      returns (ok: bool, claims: seq<Claim>)
      ensures ok <==> !DraftRefused(store, run, expectedRevision, candidates)
      ensures ok ==> claims == ClaimsOf(store.uses, store.next + 1, candidates)
    {
      if run !in store.runs || !store.runs[run].active || store.runs[run].revision != expectedRevision {
        return false, [];
      }
      if (run in store.currentJudgment && store.currentJudgment[run] !in store.judgments) || candidates == [] {
        return false, [];
      }
      ok, claims := DraftClaims(store.uses, run, store.next + 1, candidates);
    }

    // A later version of a judgment supersedes the version before it.
    method InsertJudgment(run: Id, first: Judgment, next: Id)
      requires run in store.currentJudgment ==> store.currentJudgment[run] in store.judgments
      modifies this
      ensures store == AddJudgment(old(store), run, first, next)
    {
      var j, row := store.next, first;
      if run in store.currentJudgment {
        var previous := store.currentJudgment[run];
        var prior := store.judgments[previous];
        row := row.(version := prior.version + 1, previous := Some(previous));
        store := store.(judgments := store.judgments[previous := prior.(superseded := true)]);
      }
      store := store.(judgments := store.judgments[j := row]);
      store := store.(next := next, currentJudgment := store.currentJudgment[run := j]);
    }

    method RunAudit(j: Id, expectedRevision: nat, semantic: seq<Candidate>) returns (ok: bool)
      modifies this
      ensures ok <==> AuditStep(old(store), j, expectedRevision, semantic).Some?
      ensures store == Next(old(store), Command.RunAudit(j, expectedRevision, semantic))
    {
      if j !in store.judgments || store.judgments[j].superseded || store.judgments[j].revision != expectedRevision {
        return false;
      }
      var gathered, candidates := GatherCandidates(j, semantic);
      if !gathered {
        return false;
      }
      ok := StoreAudit(j, expectedRevision, candidates);
    }

    // The deterministic findings before the semantic ones; all must be about claims of the judgment.
    method GatherCandidates(j: Id, semantic: seq<Candidate>) returns (ok: bool, candidates: seq<Candidate>)
      requires j in store.judgments
      ensures ok <==> AuditCandidates(store, j, semantic).Some?
      ensures ok ==> AuditCandidates(store, j, semantic) == Some(candidates)
    {
      var claims := store.judgments[j].claims;
      var known, found := DeterministicPrecheck(store.uses, claims);
      candidates := found + semantic;
      ok := known && forall c <- candidates :: c.claims <= ClaimIds(claims);
    }

    // The audit with its findings first, then its fitness, which may still be refused, then the gate.
    method StoreAudit(j: Id, expectedRevision: nat, candidates: seq<Candidate>) returns (ok: bool)
      requires j in store.judgments
      modifies this
      ensures ok <==> GateOf(candidates) == Blocked || old(store).judgments[j].fitness.None?
      ensures !ok ==> store == old(store)
      ensures ok ==> store == AuditedStore(old(store), j, expectedRevision, candidates)
    {
      var begun := store;
      var audit, gate := store.next, GateOf(candidates);
      var fitness := audit + 1 + |candidates|;
      AppendAudit(audit, Audit(j, FindingIds(audit + 1, |candidates|), gate), candidates);
      if gate != Blocked {
        var added := AddFitness(fitness, audit, Fitness(j, AllowedUses(gate), FORBIDDEN_USES));
        if !added {
          store := begun;
          return false;
        }
      }
      ApplyGate(j, audit, gate, fitness, expectedRevision);
      return true;
    }

    method AppendAudit(audit: Id, row: Audit, candidates: seq<Candidate>)
      modifies this
      ensures store == WithAudit(old(store), audit, row, candidates)
    {
      store := store.(audits := store.audits[audit := row]);
      var rows := InsertFindings(store.findings, audit, audit + 1, candidates);
      store := store.(findings := rows);
    }

    // Refused while the judgment still carries another fitness.
    method AddFitness(fitness: Id, audit: Id, row: Fitness) returns (ok: bool)
      requires row.judgment in store.judgments
      modifies this
      ensures ok <==> old(store).judgments[row.judgment].fitness.None?
      ensures !ok ==> store == old(store)
      ensures ok ==> store == WithFitness(old(store), fitness, audit, row)
    {
      if store.judgments[row.judgment].fitness.Some? {
        return false;
      }
      store := store.(fitnesses := store.fitnesses[fitness := row], issuedBy := store.issuedBy[fitness := audit]);
      return true;
    }

    method ApplyGate(j: Id, audit: Id, gate: Gate, fitness: Id, expectedRevision: nat)
      requires j in store.judgments
      modifies this
      ensures store == WithGate(old(store), j, audit, gate, fitness, expectedRevision)
    {
      var issued := if gate == Blocked then None else Some(fitness);
      var row := store.judgments[j].(
        status := Passed(gate), currentAudit := Some(audit), fitness := issued, revision := expectedRevision + 1);
      store := store.(next := fitness + 1, judgments := store.judgments[j := row]);
    }

    method Acknowledge(finding: Id, j: Id, expectedRevision: nat) returns (ok: bool)
      modifies this
      ensures ok <==> AcknowledgeStep(old(store), finding, j, expectedRevision).Some?
      ensures store == Next(old(store), Command.Acknowledge(finding, j, expectedRevision))
    {
      if j !in store.judgments || store.judgments[j].revision != expectedRevision {
        return false;
      }
      if finding !in store.findings || store.findings[finding].severity != Warning {
        return false;
      }
      var audit := store.findings[finding].audit;
      if audit !in store.audits || store.audits[audit].judgment != j {
        return false;
      }
      store := store.(next := store.next + 1, acks := store.acks[store.next := Acknowledgement(finding, j)]);
      return true;
    }

    // The warnings of the current audit are among those the listed acknowledgements are about.
    method WarningsAreAcknowledged(j: Id, acks: seq<Id>) returns (ok: bool)
      requires j in store.judgments
      ensures ok <==> WarningsAcknowledged(store, j, acks)
    {
      var required := RequiredWarnings(store, j);
      var acknowledged: set<Id> := {};
      for i := 0 to |acks|
        invariant forall k :: 0 <= k < i ==> acks[k] in store.acks && store.acks[acks[k]].judgment == j
        invariant forall f :: f in acknowledged <==> exists k :: 0 <= k < i && store.acks[acks[k]].finding == f
      {
        if acks[i] !in store.acks || store.acks[acks[i]].judgment != j {
          return false;
        }
        acknowledged := acknowledged + {store.acks[acks[i]].finding};
      }
      ok := required <= acknowledged;
      assert forall f :: f in acknowledged <==> Acknowledged(store.acks, acks, f);
    }

    method JudgmentCanPropose(j: Id, fitness: Option<Id>, kind: Kind, acks: seq<Id>) returns (ok: bool)
      ensures ok <==> CanPropose(store, j, fitness, kind, acks)
    {
      if j !in store.judgments || store.judgments[j].status !in {Passed(Acceptable), Passed(Provisional)} {
        return false;
      }
      if fitness.None? || fitness != store.judgments[j].fitness {
        return false;
      }
      if fitness.value !in store.fitnesses || store.fitnesses[fitness.value].judgment != j {
        return false;
      }
      var use := UseOf(kind);
      if use in store.fitnesses[fitness.value].forbidden || use !in store.fitnesses[fitness.value].allowed {
        return false;
      }
      ok := WarningsAreAcknowledged(j, acks);
    }

    method CreateProposal(j: Id, expectedRevision: nat, kind: Kind, terms: Terms, acks: seq<Id>) returns (ok: bool)
      modifies this
      ensures ok <==> CreateProposalStep(old(store), j, expectedRevision, kind, terms, acks).Some?
      ensures store == Next(old(store), Command.CreateProposal(j, expectedRevision, kind, terms, acks))
    {
      if j !in store.judgments || store.judgments[j].revision != expectedRevision || !Distinct(acks) {
        return false;
      }
      var can := JudgmentCanPropose(j, store.judgments[j].fitness, kind, acks);
      if !can || !TermsFit(kind, terms) {
        return false;
      }
      var series, version := store.next, store.next + 1;
      var row := Proposal(series, store.judgments[j].researchCase, j, store.judgments[j].fitness.value, kind, terms,
                          Undecided, Current, 1, 1, acks, None);
      store := store.(currentProposal := store.currentProposal[series := version]);
      store := store.(next := version + 1, proposals := store.proposals[version := row]);
      return true;
    }

    method AdjustProposal(p: Id, expectedRevision: nat, kind: Kind, terms: Terms) returns (ok: bool)
      modifies this
      ensures ok <==> AdjustStep(old(store), p, expectedRevision, kind, terms).Some?
      ensures store == Next(old(store), Command.AdjustProposal(p, expectedRevision, kind, terms))
    {
      if p !in store.proposals || store.proposals[p].revision != expectedRevision {
        return false;
      }
      var prior := store.proposals[p];
      if prior.lifecycle != Current {
        return false;
      }
      var can := JudgmentCanPropose(prior.judgment, Some(prior.fitness), kind, prior.acks);
      if !can || !TermsFit(kind, terms) || !IsLatest(store, p) {
        return false;
      }
      StoreAdjusted(p, kind, terms);
      return true;
    }

    method StoreAdjusted(p: Id, kind: Kind, terms: Terms)
      requires p in store.proposals
      modifies this
      ensures store == AdjustedStore(old(store), p, kind, terms)
    {
      var prior, version := store.proposals[p], store.next;
      store := store.(proposals := store.proposals[p := prior.(lifecycle := Superseded)]);
      var row := prior.(kind := kind, terms := terms, decision := Adjusted, lifecycle := Current,
                        version := prior.version + 1, revision := 1, previous := Some(p));
      store := store.(next := version + 1, proposals := store.proposals[version := row]);
      store := store.(currentProposal := store.currentProposal[prior.series := version]);
    }

    method RejectProposal(p: Id, expectedRevision: nat) returns (ok: bool)
      modifies this
      ensures ok <==> RejectStep(old(store), p, expectedRevision).Some?
      ensures store == Next(old(store), Command.RejectProposal(p, expectedRevision))
    {
      if p !in store.proposals || store.proposals[p].revision != expectedRevision {
        return false;
      }
      var row := store.proposals[p].(decision := Rejected, lifecycle := Withdrawn, revision := expectedRevision + 1);
      store := store.(proposals := store.proposals[p := row]);
      return true;
    }

    method AcceptProposal(p: Id, expectedRevision: nat, j: Id, fitness: Id, acks: seq<Id>) returns (ok: bool)
      modifies this
      ensures ok <==> AcceptStep(old(store), p, expectedRevision, j, fitness, acks).Some?
      ensures store == Next(old(store), Command.AcceptProposal(p, expectedRevision, j, fitness, acks))
    {
      if p !in store.proposals || store.proposals[p].revision != expectedRevision {
        return false;
      }
      var row := store.proposals[p];
      if row.judgment != j || row.fitness != fitness {
        return false;
      }
      if !Distinct(acks) || (set a <- acks) != (set a <- row.acks) {
        return false;
      }
      var can := JudgmentCanPropose(j, Some(fitness), row.kind, acks);
      if !can || row.researchCase !in store.cases || !TermsFit(row.kind, row.terms) || !IsLatest(store, p) {
        return false;
      }
      StoreAccepted(p);
      return true;
    }

    // The proposal row, then the disposition, then the case that now points to it.
    method StoreAccepted(p: Id)
      requires p in store.proposals && store.proposals[p].researchCase in store.cases
      modifies this
      ensures store == AcceptedStore(old(store), p)
    {
      var row, id := store.proposals[p], store.next;
      var prior := store.cases[row.researchCase];
      store := store.(proposals := store.proposals[p := row.(decision := Accepted, revision := row.revision + 1)]);
      store := store.(next := id + 1, dispositions := store.dispositions
                      + [Disposition(row.researchCase, p, row.judgment, row.fitness, row.kind, prior.disposition)]);
      store := store.(cases := store.cases[row.researchCase := Case(prior.revision + 1, Some(id))]);
    }
  }
}
