/** What a draft makes of the claims in its request, and when a judgment can be proposed upon. */
module Drafts {
  import opened Options
  import opened Places
  import opened Decisions
  import opened DecisionSafety
  import opened Acceptance
  import JudgmentVersions

  // ----- the links a claim keeps

  // Link `i` is the first of its evidence unit, and the unit is new.
  predicate FirstOfUnit(uses: map<Id, EvidenceUse>, links: seq<Id>, seen: set<Id>, i: nat)
    requires Known(uses, links) && i < |links|
  {
    uses[links[i]].unit !in seen && forall j :: 0 <= j < i ==> uses[links[j]].unit != uses[links[i]].unit
  }

  // `kept` lists, in order, exactly the links that are the first of their unit; `at` says where they stand.
  ghost predicate KeepsFirst(uses: map<Id, EvidenceUse>, links: seq<Id>, seen: set<Id>, kept: seq<Id>, at: seq<nat>)
    requires Known(uses, links)
  {
    && |at| == |kept|
    && (forall k :: 0 <= k < |at| ==> at[k] < |links| && kept[k] == links[at[k]])
    && Rising(at)
    && (forall i :: 0 <= i < |links| ==> (i in at <==> FirstOfUnit(uses, links, seen, i)))
  }

  lemma FirstLater(uses: map<Id, EvidenceUse>, links: seq<Id>, seen: set<Id>, i: nat)
    requires Known(uses, links) && links != [] && i < |links| - 1
    ensures Known(uses, links[1..])
    ensures FirstOfUnit(uses, links, seen, i + 1)
            <==> FirstOfUnit(uses, links[1..], seen + {uses[links[0]].unit}, i)
  {
    assert forall j :: 0 <= j < |links| - 1 ==> links[1..][j] == links[j + 1];
  }

  // Putting a link in front that is kept, or not.
  lemma KeepsFirstMore(uses: map<Id, EvidenceUse>, links: seq<Id>, seen: set<Id>, rest: seq<Id>, later: seq<nat>,
                       head: seq<nat>)
    requires Known(uses, links) && links != [] && Known(uses, links[1..])
    requires KeepsFirst(uses, links[1..], seen + {uses[links[0]].unit}, rest, later)
    requires head == if uses[links[0]].unit in seen then [] else [0]
    ensures KeepsFirst(uses, links, seen, (if head == [] then [] else [links[0]]) + rest, head + Shifted(later))
  {
    var at := head + Shifted(later);
    forall i | 0 <= i < |links| ensures i in at <==> FirstOfUnit(uses, links, seen, i) {
      if i > 0 {
        FirstLater(uses, links, seen, i - 1);
        ShiftedHas(later, i - 1);
      } else {
        ShiftedHas(later, 0);
      }
    }
  }

  lemma {:induction false} KeptLinksAreFirst(uses: map<Id, EvidenceUse>, links: seq<Id>, seen: set<Id>)
    returns (at: seq<nat>)
    requires Known(uses, links)
    ensures KeepsFirst(uses, links, seen, KeptLinks(uses, links, seen), at)
  {
    if links == [] {
      at := [];
    } else {
      var unit := uses[links[0]].unit;
      var later := KeptLinksAreFirst(uses, links[1..], seen + {unit});
      var rest := KeptLinks(uses, links[1..], seen + {unit});
      var head := if unit in seen then [] else [0];
      at := head + Shifted(later);
      KeepsFirstMore(uses, links, seen, rest, later, head);
      if unit in seen {
        assert seen + {unit} == seen && [] + rest == rest;
      }
    }
  }

  /** A committed draft makes one judgment of the run, with one claim for each of the request, in order, that
      keeps what the request says of it and the first link of each evidence unit. */
  lemma DraftMeans(s: Store, run: Id, revision: nat, candidates: seq<ClaimCandidate>, t: Store)
    requires DraftStep(s, run, revision, candidates) == Some(t)
    ensures s.next in t.judgments && run in s.runs && t.currentJudgment == s.currentJudgment[run := s.next]
    ensures t.judgments[s.next].run == run && t.judgments[s.next].researchCase == s.runs[run].researchCase
    ensures t.judgments[s.next].status == Pending && t.judgments[s.next].fitness == None
    ensures |t.judgments[s.next].claims| == |candidates|
    ensures forall i :: 0 <= i < |candidates| ==>
              var c := t.judgments[s.next].claims[i];
              && c.id == s.next + 1 + i && c.core == candidates[i].core && c.evidence == candidates[i].evidence
              && c.hasRationale && Known(s.uses, candidates[i].links)
              && exists at :: KeepsFirst(s.uses, candidates[i].links, {}, c.links, at)
  {
    var row, next := DraftAdds(s, run, revision, candidates);
    forall i | 0 <= i < |candidates|
      ensures Known(s.uses, candidates[i].links)
      ensures exists at :: KeepsFirst(s.uses, candidates[i].links, {}, row.claims[i].links, at)
    {
      assert UsableClaim(s.uses, run, candidates[i]);
      var at := KeptLinksAreFirst(s.uses, candidates[i].links, {});
      assert row.claims[i] == ClaimOf(s.uses, s.next + 1 + i, candidates[i]);
    }
  }

  // ----- exactly when a draft is taken

  // The rationale is that of a recommendation, or of the type of the claim; an analogy argues like an inference.
  predicate RationaleFits(c: ClaimCandidate) {
    match c.profile
    case RecommendationProfile => c.role == Recommendation
    case FactProfile => c.role != Recommendation && c.epistemic == Fact
    case InterpretationProfile => c.role != Recommendation && c.epistemic == Interpretation
    case InferenceProfile => c.role != Recommendation && c.epistemic in {Inference, Analogy}
    case HypothesisProfile => c.role != Recommendation && c.epistemic == Hypothesis
  }

  // Each use is linked once, is of this run and valid; core judgments and recommendations have one.
  predicate LinksFit(uses: map<Id, EvidenceUse>, run: Id, c: ClaimCandidate) {
    && (forall i :: 0 <= i < |c.links| ==> c.links[i] in uses && uses[c.links[i]].run == run && uses[c.links[i]].valid)
    && (forall i, k :: 0 <= i < k < |c.links| ==> c.links[i] != c.links[k])
    && (c.role == CoreJudgment || c.role == Recommendation ==> |c.links| > 0)
  }

  lemma UsableMeans(uses: map<Id, EvidenceUse>, run: Id, c: ClaimCandidate)
    ensures UsableClaim(uses, run, c) <==> RationaleFits(c) && LinksFit(uses, run, c)
  {
    assert c.profile == ProfileFor(c.role, c.epistemic) <==> RationaleFits(c);
    forall i | 0 <= i < |c.links| ensures c.links[i] in c.links {
    }
  }

  /** In every store that commands reach, a draft is taken exactly for an active run at the named revision, with at
      least one claim, each with the rationale and the links that fit it. */
  lemma {:induction false} DraftsExactly(commands: seq<Command>, s: Store, run: Id, revision: nat,
                                         candidates: seq<ClaimCandidate>)
    requires s == Run(EMPTY, commands)
    ensures DraftStep(s, run, revision, candidates).Some?
            <==> && run in s.runs && s.runs[run].active && s.runs[run].revision == revision && candidates != []
                 && forall c <- candidates :: RationaleFits(c) && LinksFit(s.uses, run, c)
  {
    JudgmentVersions.VersionsOfRun(commands);
    assert JudgmentVersions.CurrentKept(s.judgments, s.currentJudgment);
    forall c | c in candidates ensures UsableClaim(s.uses, run, c) <==> RationaleFits(c) && LinksFit(s.uses, run, c) {
      UsableMeans(s.uses, run, c);
    }
  }

  // ----- exactly when a proposal can be made

  ghost predicate IssuedStored(s: Store) {
    forall f <- s.issuedBy :: f in s.fitnesses
  }

  lemma AuditKeepsIssued(s: Store, j: Id, revision: nat, semantic: seq<Candidate>, t: Store)
    requires IssuedStored(s) && AuditStep(s, j, revision, semantic) == Some(t)
    ensures IssuedStored(t)
  {
    var candidates, fitness, gate := AuditIsAudited(s, j, revision, semantic, t);
  }

  lemma OthersKeepIssued(s: Store, c: Command)
    requires !c.RunAudit?
    ensures Next(s, c).issuedBy == s.issuedBy && Next(s, c).fitnesses == s.fitnesses
  {
  }

  lemma {:induction false} IssuedRun(s: Store, commands: seq<Command>)
    requires IssuedStored(s)
    ensures IssuedStored(Run(s, commands))
  {
    if commands != [] {
      var before, c := Run(s, commands[..|commands| - 1]), commands[|commands| - 1];
      IssuedRun(s, commands[..|commands| - 1]);
      if c.RunAudit? {
        if Apply(before, c).Some? {
          AuditKeepsIssued(before, c.judgment, c.expectedRevision, c.semantic, Next(before, c));
        }
      } else {
        OthersKeepIssued(before, c);
      }
    }
  }

  // Nothing acts on an audited judgment, and only an acceptable one lets a user observe.
  predicate Permitted(kind: Kind, status: AuditStatus) {
    match kind
    case ProceedToAction => false
    case Observe => status == Passed(Acceptable)
    case _ => status == Passed(Acceptable) || status == Passed(Provisional)
  }

  // One of the listed acknowledgements is of this finding.
  ghost predicate Covers(s: Store, acks: seq<Id>, f: Id) {
    exists i :: 0 <= i < |acks| && acks[i] in s.acks && s.acks[acks[i]].finding == f
  }

  // The list names acknowledgements of judgment `j`, each once, and one for each warning of audit `a`.
  ghost predicate CoversWarnings(s: Store, j: Id, a: Id, acks: seq<Id>) {
    && (forall i, k :: 0 <= i < k < |acks| ==> acks[i] != acks[k])
    && (forall i :: 0 <= i < |acks| ==> acks[i] in s.acks && s.acks[acks[i]].judgment == j)
    && (forall f <- s.findings :: s.findings[f].audit == a && s.findings[f].severity == Warning ==> Covers(s, acks, f))
  }

  // What a judgment that passed its audit carries.
  lemma PassedCarries(s: Store, j: Id, kind: Kind)
    requires Inv(s) && IssuedStored(s) && j in s.judgments
    requires s.judgments[j].status == Passed(Acceptable) || s.judgments[j].status == Passed(Provisional)
    ensures s.judgments[j].currentAudit.Some? && s.judgments[j].fitness.Some?
    ensures s.judgments[j].fitness.value in s.fitnesses && s.fitnesses[s.judgments[j].fitness.value].judgment == j
    ensures UseOf(kind) !in s.fitnesses[s.judgments[j].fitness.value].forbidden
            && UseOf(kind) in s.fitnesses[s.judgments[j].fitness.value].allowed
            <==> Permitted(kind, s.judgments[j].status)
  {
    assert JudgmentKept(s.judgments[j], j, s.audits, s.issuedBy);
    var f := s.judgments[j].fitness.value;
    assert FitnessKept(s.fitnesses[f], f, s.audits, s.issuedBy);
  }

  lemma PassedProposes(s: Store, j: Id, kind: Kind, acks: seq<Id>)
    requires Inv(s) && IssuedStored(s) && j in s.judgments
    ensures CanPropose(s, j, s.judgments[j].fitness, kind, acks)
            <==> Permitted(kind, s.judgments[j].status) && WarningsAcknowledged(s, j, acks)
    ensures Permitted(kind, s.judgments[j].status) ==> s.judgments[j].currentAudit.Some?
  {
    if s.judgments[j].status == Passed(Acceptable) || s.judgments[j].status == Passed(Provisional) {
      PassedCarries(s, j, kind);
    }
  }

  lemma TermsMean(kind: Kind, terms: Terms)
    ensures TermsFit(kind, terms) <==> terms == Terms(kind == DeferDecision, kind == Observe)
  {
  }

  lemma WarningsCovered(s: Store, j: Id, acks: seq<Id>)
    requires j in s.judgments && s.judgments[j].currentAudit.Some?
    ensures Distinct(acks) && WarningsAcknowledged(s, j, acks)
            <==> CoversWarnings(s, j, s.judgments[j].currentAudit.value, acks)
  {
    var a := s.judgments[j].currentAudit.value;
    assert forall f <- s.findings :: s.findings[f].audit == a && s.findings[f].severity == Warning
             <==> f in RequiredWarnings(s, j);
    forall f ensures Covers(s, acks, f) <==> Acknowledged(s.acks, acks, f) {
    }
  }

  lemma ReadyProposes(s: Store, j: Id, revision: nat, kind: Kind, terms: Terms, acks: seq<Id>)
    requires Inv(s) && IssuedStored(s) && j in s.judgments
    ensures CreateAllowed(s, j, revision, kind, terms, acks)
            <==> && revision == s.judgments[j].revision && Permitted(kind, s.judgments[j].status)
                 && terms == Terms(kind == DeferDecision, kind == Observe)
                 && s.judgments[j].currentAudit.Some?
                 && CoversWarnings(s, j, s.judgments[j].currentAudit.value, acks)
  {
    PassedProposes(s, j, kind, acks);
    TermsMean(kind, terms);
    if s.judgments[j].currentAudit.Some? {
      WarningsCovered(s, j, acks);
    }
  }

  /** In every store that commands reach, a proposal is made exactly when the request names the revision of the
      judgment, its audit passed and permits the kind, the terms fit the kind, and the acknowledgements cover all
      warnings of that audit. */
  lemma {:induction false} ProposedExactly(commands: seq<Command>, j: Id, revision: nat, kind: Kind, terms: Terms,
                                           acks: seq<Id>, s: Store)
    requires s == Run(EMPTY, commands) && j in s.judgments
    ensures CreateProposalStep(s, j, revision, kind, terms, acks).Some?
            <==> && revision == s.judgments[j].revision && Permitted(kind, s.judgments[j].status)
                 && terms == Terms(kind == DeferDecision, kind == Observe)
                 && s.judgments[j].currentAudit.Some?
                 && CoversWarnings(s, j, s.judgments[j].currentAudit.value, acks)
  {
    InvRun(EMPTY, commands);
    IssuedRun(EMPTY, commands);
    ReadyProposes(s, j, revision, kind, terms, acks);
  }

  // An audit of the judgment made the finding, as a warning.
  predicate WarnsOf(s: Store, finding: Id, j: Id) {
    && finding in s.findings && s.findings[finding].severity == Warning
    && s.findings[finding].audit in s.audits && s.audits[s.findings[finding].audit].judgment == j
  }

  /** An acknowledgement is taken exactly for a warning of an audit of the judgment, at its revision; it adds that row
      and changes nothing else. */
  lemma AcknowledgesExactly(s: Store, finding: Id, j: Id, revision: nat)
    ensures AcknowledgeStep(s, finding, j, revision).Some?
            <==> j in s.judgments && s.judgments[j].revision == revision && WarnsOf(s, finding, j)
    ensures AcknowledgeStep(s, finding, j, revision).Some? ==>
              AcknowledgeStep(s, finding, j, revision).value
              == s.(next := s.next + 1, acks := s.acks[s.next := Acknowledgement(finding, j)])
  {
  }
}
