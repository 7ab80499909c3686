/**
  When an audit blocks a judgment, said of its claims and of the findings of its reader alone; and what
  therefore holds of the claims of every judgment that a disposition rests on.
 */
module Audits {
  import opened Options
  import opened Decisions
  import opened DecisionSafety
  import opened Dispositions

  // ----- what is wrong with a claim

  // A core claim without evidence link, without rationale, or whose evidence does not carry it.
  predicate Wanting(c: Claim) {
    c.core && (c.links == [] || !c.hasRationale || c.evidence in {Unassessed, Insufficient, Contradicted})
  }

  // The claim links an evidence use that is not valid.
  predicate LinksInvalid(uses: map<Id, EvidenceUse>, c: Claim) {
    exists l <- c.links :: l in uses && !uses[l].valid
  }

  // A core claim that its evidence carries only in part.
  predicate Weak(c: Claim) {
    c.core && c.evidence in {PartiallySupported, Mixed}
  }

  predicate Unsound(uses: map<Id, EvidenceUse>, c: Claim) {
    Wanting(c) || LinksInvalid(uses, c)
  }

  // ----- what the deterministic part of an audit finds

  lemma {:induction false} LinkFindingsMean(uses: map<Id, EvidenceUse>, claim: Id, links: seq<Id>)
    requires Known(uses, links)
    ensures forall x :: x in LinkFindings(uses, claim, links)
                        <==> x == Candidate({claim}, Blocking) && exists l <- links :: !uses[l].valid
  {
    if links != [] {
      LinkFindingsMean(uses, claim, links[1..]);
      assert links == [links[0]] + links[1..];
    }
  }

  lemma CoreFindingsMean(c: Claim)
    ensures Candidate({c.id}, Blocking) in CoreFindings(c) <==> Wanting(c)
    ensures Candidate({c.id}, Warning) in CoreFindings(c) <==> Weak(c)
    ensures forall x <- CoreFindings(c) :: x.claims == {c.id}
  {
  }

  // The findings about one claim: a blocking one exactly when it is unsound, a warning exactly when it is weak.
  lemma ClaimFindingsMean(uses: map<Id, EvidenceUse>, c: Claim)
    requires Known(uses, c.links)
    ensures Candidate({c.id}, Blocking) in ClaimFindings(uses, c) <==> Unsound(uses, c)
    ensures Candidate({c.id}, Warning) in ClaimFindings(uses, c) <==> Weak(c)
    ensures forall x <- ClaimFindings(uses, c) :: x.claims == {c.id}
  {
    LinkFindingsMean(uses, c.id, c.links);
    CoreFindingsMean(c);
  }

  // The finding names this claim, and rightly.
  predicate FoundFor(uses: map<Id, EvidenceUse>, x: Candidate, c: Claim) {
    x.claims == {c.id} && if x.severity == Blocking then Unsound(uses, c) else Weak(c)
  }

  ghost predicate FoundForSome(uses: map<Id, EvidenceUse>, x: Candidate, claims: seq<Claim>) {
    exists i :: 0 <= i < |claims| && FoundFor(uses, x, claims[i])
  }

  // Each claim has its findings, and each finding its claim.
  ghost predicate FindsClaims(uses: map<Id, EvidenceUse>, claims: seq<Claim>, found: seq<Candidate>) {
    && (forall c <- claims :: Unsound(uses, c) ==> Candidate({c.id}, Blocking) in found)
    && (forall c <- claims :: Weak(c) ==> Candidate({c.id}, Warning) in found)
    && (forall x <- found :: FoundForSome(uses, x, claims))
  }

  lemma {:induction false} PrecheckMeans(uses: map<Id, EvidenceUse>, claims: seq<Claim>)
    requires LinksKnown(uses, claims)
    ensures FindsClaims(uses, claims, Precheck(uses, claims))
  {
    if claims != [] {
      PrecheckMeans(uses, claims[1..]);
      ClaimFindingsMean(uses, claims[0]);
      var own, rest := ClaimFindings(uses, claims[0]), Precheck(uses, claims[1..]);
      assert claims == [claims[0]] + claims[1..];
      forall x | x in own + rest ensures FoundForSome(uses, x, claims) {
        if x in own {
          assert x == Candidate({claims[0].id}, x.severity);
          assert FoundFor(uses, x, claims[0]);
        } else {
          var i :| 0 <= i < |claims[1..]| && FoundFor(uses, x, claims[1..][i]);
          assert FoundFor(uses, x, claims[i + 1]);
        }
      }
    }
  }

  // ----- when an audit blocks

  predicate HasBlocking(semantic: seq<Candidate>) {
    exists x <- semantic :: x.severity == Blocking
  }

  predicate SomeUnsound(uses: map<Id, EvidenceUse>, claims: seq<Claim>) {
    exists c <- claims :: Unsound(uses, c)
  }

  predicate SomeWeak(claims: seq<Claim>) {
    exists c <- claims :: Weak(c)
  }

  lemma BlockedMeans(uses: map<Id, EvidenceUse>, claims: seq<Claim>, found: seq<Candidate>, semantic: seq<Candidate>)
    requires FindsClaims(uses, claims, found)
    ensures GateOf(found + semantic) == Blocked <==> SomeUnsound(uses, claims) || HasBlocking(semantic)
  {
    forall x | x in found && x.severity == Blocking ensures SomeUnsound(uses, claims) {
      var i :| 0 <= i < |claims| && FoundFor(uses, x, claims[i]);
    }
    if SomeUnsound(uses, claims) {
      var c :| c in claims && Unsound(uses, c);
      assert Candidate({c.id}, Blocking) in found + semantic;
    }
    if HasBlocking(semantic) {
      var x :| x in semantic && x.severity == Blocking;
      assert x in found + semantic;
    }
  }

  lemma AcceptableMeans(uses: map<Id, EvidenceUse>, claims: seq<Claim>, found: seq<Candidate>, semantic: seq<Candidate>)
    requires FindsClaims(uses, claims, found)
    ensures GateOf(found + semantic) == Acceptable
            <==> !SomeUnsound(uses, claims) && !SomeWeak(claims) && semantic == []
  {
    AcceptableIsEmpty(found + semantic);
    if found != [] {
      assert FoundForSome(uses, found[0], claims);
      var i :| 0 <= i < |claims| && FoundFor(uses, found[0], claims[i]);
      assert claims[i] in claims;
    }
    if SomeUnsound(uses, claims) {
      var c :| c in claims && Unsound(uses, c);
      assert Candidate({c.id}, Blocking) in found;
    }
    if SomeWeak(claims) {
      var c :| c in claims && Weak(c);
      assert Candidate({c.id}, Warning) in found;
    }
  }

  lemma AcceptableIsEmpty(found: seq<Candidate>)
    ensures GateOf(found) == Acceptable <==> found == []
  {
    if found != [] {
      match found[0].severity
      case Warning => assert found[0] in found;
      case Blocking => assert found[0] in found;
    }
  }

  lemma {:induction false} GateMeans(uses: map<Id, EvidenceUse>, claims: seq<Claim>, semantic: seq<Candidate>)
    requires LinksKnown(uses, claims)
    ensures GateOf(Precheck(uses, claims) + semantic) == Blocked <==> SomeUnsound(uses, claims) || HasBlocking(semantic)
    ensures GateOf(Precheck(uses, claims) + semantic) == Acceptable
            <==> !SomeUnsound(uses, claims) && !SomeWeak(claims) && semantic == []
  {
    PrecheckMeans(uses, claims);
    BlockedMeans(uses, claims, Precheck(uses, claims), semantic);
    AcceptableMeans(uses, claims, Precheck(uses, claims), semantic);
  }

  // ----- a committed audit

  // A finding of audit `a` about exactly these claims.
  ghost predicate HasFinding(findings: map<Id, Finding>, a: Id, x: Candidate) {
    exists f <- findings :: findings[f] == Finding(a, x.claims, x.severity)
  }

  lemma {:induction false} RowOf(findings: map<Id, Finding>, a: Id, first: Id, found: seq<Candidate>, x: Candidate)
    requires x in found
    ensures HasFinding(findings + FindingRows(a, first, found), a, x)
  {
    var i :| 0 <= i < |found| && found[i] == x;
    RowsAreCandidates(a, first, found);
    var rows := FindingRows(a, first, found);
    assert first + i in rows;
    assert (findings + rows)[first + i] == Finding(a, x.claims, x.severity);
  }

  // Every finding of the audit comes from its reader or is about a claim that earned it.
  ghost predicate FoundRightly(
    findings: map<Id, Finding>, a: Id, uses: map<Id, EvidenceUse>, claims: seq<Claim>, semantic: seq<Candidate>)
  {
    forall f <- findings :: findings[f].audit == a ==>
      var x := Candidate(findings[f].claims, findings[f].severity);
      x in semantic || FoundForSome(uses, x, claims)
  }

  lemma RowFound(uses: map<Id, EvidenceUse>, claims: seq<Claim>, semantic: seq<Candidate>, found: seq<Candidate>,
                 x: Candidate)
    requires FindsClaims(uses, claims, found) && x in found + semantic
    ensures x in semantic || FoundForSome(uses, x, claims)
  {
  }

  lemma {:induction false} RowsFoundRightly(findings: map<Id, Finding>, a: Id, first: Id, uses: map<Id, EvidenceUse>,
                                            claims: seq<Claim>, semantic: seq<Candidate>)
    requires LinksKnown(uses, claims) && forall f <- findings :: findings[f].audit != a
    ensures FoundRightly(findings + FindingRows(a, first, Precheck(uses, claims) + semantic), a, uses, claims, semantic)
  {
    var found := Precheck(uses, claims) + semantic;
    var rows := FindingRows(a, first, found);
    PrecheckMeans(uses, claims);
    RowsAreCandidates(a, first, found);
    forall f | f in findings + rows && (findings + rows)[f].audit == a
      ensures var x := Candidate((findings + rows)[f].claims, (findings + rows)[f].severity);
              x in semantic || FoundForSome(uses, x, claims)
    {
      assert f in rows;
      RowFound(uses, claims, semantic, Precheck(uses, claims), found[f - first]);
    }
  }

  lemma StoredKeepsClaims(
    s: Store, j: Id, revision: nat, gate: Gate, ids: seq<Id>, candidates: seq<Candidate>, fitness: Id)
    requires j in s.judgments
    ensures StoredAudit(s, j, revision, gate, ids, candidates, fitness).judgments[j].claims == s.judgments[j].claims
  {
  }

  // A committed audit stored these findings with the next id, and the judgment carries their gate.
  lemma AuditFound(s: Store, j: Id, revision: nat, semantic: seq<Candidate>, t: Store) returns (found: seq<Candidate>)
    requires AuditStep(s, j, revision, semantic) == Some(t)
    ensures j in s.judgments && LinksKnown(s.uses, s.judgments[j].claims)
    ensures found == Precheck(s.uses, s.judgments[j].claims) + semantic
    ensures t.findings == s.findings + FindingRows(s.next, s.next + 1, found)
    ensures j in t.judgments && t.judgments[j].claims == s.judgments[j].claims
    ensures t.judgments[j].currentAudit == Some(s.next) && t.judgments[j].status == Passed(GateOf(found))
    ensures t.judgments[j].fitness.None? <==> GateOf(found) == Blocked
  {
    var gate, ids, fitness;
    gate, ids, found, fitness := AuditStores(s, j, revision, semantic);
    StoredIsAudited(s, j, revision, gate, ids, found, s.next, fitness);
    StoredKeepsClaims(s, j, revision, gate, ids, found, fitness);
  }

  /** A committed audit blocks the judgment, and leaves it without fitness, exactly when a claim of it is unsound
      or a finding of the reader blocks; it is acceptable exactly when no claim is unsound or weak and the reader
      found nothing. */
  lemma AuditDecides(s: Store, j: Id, revision: nat, semantic: seq<Candidate>, t: Store)
    requires AuditStep(s, j, revision, semantic) == Some(t)
    ensures j in s.judgments && j in t.judgments && t.judgments[j].claims == s.judgments[j].claims
    ensures t.judgments[j].status.Passed?
    ensures t.judgments[j].status == Passed(Blocked)
            <==> SomeUnsound(s.uses, s.judgments[j].claims) || HasBlocking(semantic)
    ensures t.judgments[j].fitness.None? <==> SomeUnsound(s.uses, s.judgments[j].claims) || HasBlocking(semantic)
    ensures t.judgments[j].status == Passed(Acceptable)
            <==> !SomeUnsound(s.uses, s.judgments[j].claims) && !SomeWeak(s.judgments[j].claims) && semantic == []
  {
    var found := AuditFound(s, j, revision, semantic, t);
    GateMeans(s.uses, s.judgments[j].claims, semantic);
  }

  // Every unsound or weak claim and every finding of the reader has its finding row, and no other row is there.
  ghost predicate NamesAll(
    findings: map<Id, Finding>, a: Id, uses: map<Id, EvidenceUse>, claims: seq<Claim>, semantic: seq<Candidate>)
  {
    && (forall c <- claims :: Unsound(uses, c) ==> HasFinding(findings, a, Candidate({c.id}, Blocking)))
    && (forall c <- claims :: Weak(c) ==> HasFinding(findings, a, Candidate({c.id}, Warning)))
    && (forall x <- semantic :: HasFinding(findings, a, x))
    && FoundRightly(findings, a, uses, claims, semantic)
  }

  lemma RowsNameAll(findings: map<Id, Finding>, a: Id, uses: map<Id, EvidenceUse>, claims: seq<Claim>,
                    semantic: seq<Candidate>, found: seq<Candidate>)
    requires LinksKnown(uses, claims) && found == Precheck(uses, claims) + semantic
    requires forall f <- findings :: findings[f].audit != a
    ensures NamesAll(findings + FindingRows(a, a + 1, found), a, uses, claims, semantic)
  {
    var after := findings + FindingRows(a, a + 1, found);
    PrecheckMeans(uses, claims);
    forall c | c in claims && Unsound(uses, c) ensures HasFinding(after, a, Candidate({c.id}, Blocking)) {
      assert Candidate({c.id}, Blocking) in Precheck(uses, claims);
      RowOf(findings, a, a + 1, found, Candidate({c.id}, Blocking));
    }
    forall c | c in claims && Weak(c) ensures HasFinding(after, a, Candidate({c.id}, Warning)) {
      assert Candidate({c.id}, Warning) in Precheck(uses, claims);
      RowOf(findings, a, a + 1, found, Candidate({c.id}, Warning));
    }
    forall x | x in semantic ensures HasFinding(after, a, x) {
      RowOf(findings, a, a + 1, found, x);
    }
    RowsFoundRightly(findings, a, a + 1, uses, claims, semantic);
  }

  lemma StoredNamesAll(s: Store, j: Id, semantic: seq<Candidate>, found: seq<Candidate>, after: map<Id, Finding>)
    requires AuditsKept(s.audits, s.judgments, s.findings) && Below(s.audits, s.next) && j in s.judgments
    requires LinksKnown(s.uses, s.judgments[j].claims)
    requires found == Precheck(s.uses, s.judgments[j].claims) + semantic
    requires after == s.findings + FindingRows(s.next, s.next + 1, found)
    ensures NamesAll(after, s.next, s.uses, s.judgments[j].claims, semantic)
  {
    RowsNameAll(s.findings, s.next, s.uses, s.judgments[j].claims, semantic, found);
  }

  /** Each unsound and each weak claim, and each finding of the reader, is named by a finding of the audit. */
  lemma AuditNames(s: Store, j: Id, revision: nat, semantic: seq<Candidate>, t: Store) returns (a: Id)
    requires Inv(s) && AuditStep(s, j, revision, semantic) == Some(t)
    ensures j in s.judgments && j in t.judgments && t.judgments[j].currentAudit == Some(a)
    ensures NamesAll(t.findings, a, s.uses, s.judgments[j].claims, semantic)
  {
    a := s.next;
    var found := AuditFound(s, j, revision, semantic, t);
    StoredNamesAll(s, j, semantic, found, t.findings);
  }

  // ----- the claims behind every disposition

  // A judgment whose audit passed has no unsound claim, and an acceptable one no weak claim either.
  ghost predicate JudgmentSound(row: Judgment, uses: map<Id, EvidenceUse>) {
    && LinksKnown(uses, row.claims)
    && (row.status == Passed(Acceptable) || row.status == Passed(Provisional) ==> !SomeUnsound(uses, row.claims))
    && (row.status == Passed(Acceptable) ==> !SomeWeak(row.claims))
  }

  ghost predicate DispositionSound(d: Disposition, judgments: map<Id, Judgment>, uses: map<Id, EvidenceUse>) {
    && d.judgment in judgments && !SomeUnsound(uses, judgments[d.judgment].claims)
    && (d.kind == Observe ==> !SomeWeak(judgments[d.judgment].claims))
  }

  ghost predicate JudgmentsSound(judgments: map<Id, Judgment>, uses: map<Id, EvidenceUse>) {
    forall j <- judgments :: JudgmentSound(judgments[j], uses)
  }

  ghost predicate DispositionsSound(
    dispositions: seq<Disposition>, judgments: map<Id, Judgment>, uses: map<Id, EvidenceUse>)
  {
    forall d <- dispositions :: DispositionSound(d, judgments, uses)
  }

  ghost predicate Sound(s: Store) {
    && Below(s.uses, s.next) && JudgmentsSound(s.judgments, s.uses)
    && DispositionsSound(s.dispositions, s.judgments, s.uses)
  }

  // Evidence uses and the claims of judgments never change.
  ghost predicate UsesGrow(before: map<Id, EvidenceUse>, after: map<Id, EvidenceUse>) {
    forall u <- before :: u in after && after[u] == before[u]
  }

  ghost predicate ClaimsStay(before: map<Id, Judgment>, after: map<Id, Judgment>) {
    forall j <- before :: j in after && after[j].claims == before[j].claims
  }

  lemma UnsoundStays(before: map<Id, EvidenceUse>, after: map<Id, EvidenceUse>, claims: seq<Claim>)
    requires UsesGrow(before, after) && LinksKnown(before, claims)
    ensures LinksKnown(after, claims) && (SomeUnsound(after, claims) <==> SomeUnsound(before, claims))
  {
    forall c | c in claims ensures Unsound(after, c) <==> Unsound(before, c) {
      assert Known(before, c.links);
    }
  }

  lemma DispositionsStay(s: Store, t: Store)
    requires JudgmentsSound(s.judgments, s.uses) && DispositionsSound(s.dispositions, s.judgments, s.uses)
    requires UsesGrow(s.uses, t.uses) && ClaimsStay(s.judgments, t.judgments) && t.dispositions == s.dispositions
    ensures DispositionsSound(t.dispositions, t.judgments, t.uses)
  {
    forall d | d in t.dispositions ensures DispositionSound(d, t.judgments, t.uses) {
      assert DispositionSound(d, s.judgments, s.uses);
      assert JudgmentSound(s.judgments[d.judgment], s.uses);
      UnsoundStays(s.uses, t.uses, s.judgments[d.judgment].claims);
    }
  }

  lemma RecordKeepsSound(s: Store, t: Store)
    requires Sound(s) && UsesGrow(s.uses, t.uses) && Below(t.uses, t.next)
    requires t.judgments == s.judgments && t.dispositions == s.dispositions
    ensures Sound(t)
  {
    forall j | j in t.judgments ensures JudgmentSound(t.judgments[j], t.uses) {
      assert JudgmentSound(s.judgments[j], s.uses);
      UnsoundStays(s.uses, t.uses, s.judgments[j].claims);
    }
    DispositionsStay(s, t);
  }

  lemma {:induction false} KeptAreLinks(uses: map<Id, EvidenceUse>, links: seq<Id>, seen: set<Id>)
    requires Known(uses, links)
    ensures forall l <- KeptLinks(uses, links, seen) :: l in links
  {
    if links != [] {
      if uses[links[0]].unit in seen {
        KeptAreLinks(uses, links[1..], seen);
      } else {
        KeptAreLinks(uses, links[1..], seen + {uses[links[0]].unit});
      }
    }
  }

  lemma DraftedLinksKnown(uses: map<Id, EvidenceUse>, run: Id, first: Id, candidates: seq<ClaimCandidate>)
    requires UsableClaims(uses, run, candidates)
    ensures LinksKnown(uses, ClaimsOf(uses, first, candidates))
  {
    forall c | c in ClaimsOf(uses, first, candidates) ensures Known(uses, c.links) {
      var i :| 0 <= i < |candidates| && ClaimsOf(uses, first, candidates)[i] == c;
      assert UsableClaim(uses, run, candidates[i]);
      KeptAreLinks(uses, candidates[i].links, {});
    }
  }

  lemma AddedKeepsSound(s: Store, run: Id, row: Judgment, next: Id)
    requires Sound(s) && Below(s.judgments, s.next) && s.next < next
    requires run in s.currentJudgment ==> s.currentJudgment[run] in s.judgments
    requires LinksKnown(s.uses, row.claims) && row.status == Pending
    ensures Sound(AddJudgment(s, run, row, next))
  {
    var t := AddJudgment(s, run, row, next);
    forall j | j in t.judgments ensures JudgmentSound(t.judgments[j], t.uses) {
      if j in s.judgments {
        assert JudgmentSound(s.judgments[j], s.uses);
      }
    }
    assert ClaimsStay(s.judgments, t.judgments);
    DispositionsStay(s, t);
  }

  lemma DraftKeepsSound(s: Store, run: Id, revision: nat, candidates: seq<ClaimCandidate>)
    requires Sound(s) && Below(s.judgments, s.next) && DraftStep(s, run, revision, candidates).Some?
    ensures Sound(DraftStep(s, run, revision, candidates).value)
  {
    var row, next := DraftAdds(s, run, revision, candidates);
    DraftedLinksKnown(s.uses, run, s.next + 1, candidates);
    AddedKeepsSound(s, run, row, next);
  }

  // An audit changes one judgment, and no claim, use or disposition.
  lemma AuditChanges(s: Store, j: Id, revision: nat, semantic: seq<Candidate>, t: Store)
    requires AuditStep(s, j, revision, semantic) == Some(t)
    ensures j in s.judgments && t.judgments.Keys == s.judgments.Keys && t.judgments[j].claims == s.judgments[j].claims
    ensures forall k <- s.judgments :: k != j ==> t.judgments[k] == s.judgments[k]
    ensures t.uses == s.uses && t.dispositions == s.dispositions && s.next <= t.next
  {
    var gate, ids, found, fitness := AuditStores(s, j, revision, semantic);
    StoredIsAudited(s, j, revision, gate, ids, found, s.next, fitness);
    StoredKeepsClaims(s, j, revision, gate, ids, found, fitness);
    StoredLeavesUses(s, j, revision, gate, ids, found, fitness);
  }

  lemma StoredLeavesUses(
    s: Store, j: Id, revision: nat, gate: Gate, ids: seq<Id>, candidates: seq<Candidate>, fitness: Id)
    requires j in s.judgments && s.next <= fitness
    ensures StoredAudit(s, j, revision, gate, ids, candidates, fitness).uses == s.uses
    ensures StoredAudit(s, j, revision, gate, ids, candidates, fitness).dispositions == s.dispositions
    ensures s.next <= StoredAudit(s, j, revision, gate, ids, candidates, fitness).next
  {
  }

  lemma AuditKeepsSound(s: Store, j: Id, revision: nat, semantic: seq<Candidate>, t: Store)
    requires Sound(s) && AuditStep(s, j, revision, semantic) == Some(t)
    ensures Sound(t)
  {
    AuditChanges(s, j, revision, semantic, t);
    AuditDecides(s, j, revision, semantic, t);
    AuditedSound(s, j, t);
  }

  lemma AuditedSound(s: Store, j: Id, t: Store)
    requires Sound(s) && j in s.judgments && t.judgments.Keys == s.judgments.Keys
    requires t.judgments[j].claims == s.judgments[j].claims
    requires forall k <- s.judgments :: k != j ==> t.judgments[k] == s.judgments[k]
    requires t.uses == s.uses && t.dispositions == s.dispositions && s.next <= t.next
    requires t.judgments[j].status.Passed?
    requires SomeUnsound(s.uses, s.judgments[j].claims) ==> t.judgments[j].status == Passed(Blocked)
    requires t.judgments[j].status == Passed(Acceptable) ==> !SomeWeak(s.judgments[j].claims)
    ensures Sound(t)
  {
    forall k | k in t.judgments ensures JudgmentSound(t.judgments[k], t.uses) {
      assert JudgmentSound(s.judgments[k], s.uses);
    }
    DispositionsStay(s, t);
  }

  lemma ProposableIsSound(s: Store, j: Id, fitness: Id, kind: Kind, acks: seq<Id>, d: Disposition)
    requires Inv(s) && Sound(s) && CanPropose(s, j, Some(fitness), kind, acks)
    requires d.judgment == j && d.kind == kind
    ensures DispositionSound(d, s.judgments, s.uses)
  {
    CanProposeIsKept(s, j, fitness, kind, acks);
    assert JudgmentKept(s.judgments[j], j, s.audits, s.issuedBy);
    assert JudgmentSound(s.judgments[j], s.uses);
  }

  lemma AcceptedSound(s: Store, p: Id, revision: nat, j: Id, fitness: Id, acks: seq<Id>, t: Store)
    requires Inv(s) && Sound(s) && AcceptStep(s, p, revision, j, fitness, acks) == Some(t)
    ensures Sound(t)
  {
    var d := AcceptIsSafe(s, p, revision, j, fitness, acks);
    ProposableIsSound(s, j, fitness, s.proposals[p].kind, acks, d);
  }

  lemma PlainKeepsSound(s: Store, c: Command)
    requires Sound(s) && !c.CreateDraft? && !c.RunAudit? && !c.AcceptProposal?
    ensures Sound(Next(s, c))
  {
    RecordKeepsSound(s, Next(s, c));
  }

  lemma SoundKept(s: Store, c: Command)
    requires Inv(s) && Sound(s)
    ensures Sound(Next(s, c))
  {
    if Apply(s, c).Some? {
      match c
      case CreateDraft(run, revision, claims) => DraftKeepsSound(s, run, revision, claims);
      case RunAudit(j, revision, semantic) => AuditKeepsSound(s, j, revision, semantic, Next(s, c));
      case AcceptProposal(p, revision, j, fitness, acks) => AcceptedSound(s, p, revision, j, fitness, acks, Next(s, c));
      case _ => PlainKeepsSound(s, c);
    }
  }

  lemma {:induction false} SoundRun(s: Store, commands: seq<Command>)
    requires Inv(s) && Sound(s)
    ensures Inv(Run(s, commands)) && Sound(Run(s, commands))
  {
    if commands != [] {
      SoundRun(s, commands[..|commands| - 1]);
      InvKept(Run(s, commands[..|commands| - 1]), commands[|commands| - 1]);
      SoundKept(Run(s, commands[..|commands| - 1]), commands[|commands| - 1]);
    }
  }

  // The finding is about claims of the judgment.
  ghost predicate AboutClaims(x: Candidate, claims: seq<Claim>) {
    forall id <- x.claims :: exists i :: 0 <= i < |claims| && claims[i].id == id
  }

  lemma AboutIsKnown(x: Candidate, claims: seq<Claim>)
    ensures x.claims <= ClaimIds(claims) <==> AboutClaims(x, claims)
  {
    forall id ensures id in ClaimIds(claims) <==> exists i :: 0 <= i < |claims| && claims[i].id == id {
      if i :| 0 <= i < |claims| && claims[i].id == id {
        assert claims[i] in claims;
      }
    }
  }

  lemma FoundAreAbout(uses: map<Id, EvidenceUse>, claims: seq<Claim>, found: seq<Candidate>, x: Candidate)
    requires FindsClaims(uses, claims, found) && x in found
    ensures AboutClaims(x, claims)
  {
    var i :| 0 <= i < |claims| && FoundFor(uses, x, claims[i]);
  }

  lemma CandidatesExist(s: Store, j: Id, semantic: seq<Candidate>)
    requires j in s.judgments && LinksKnown(s.uses, s.judgments[j].claims)
    ensures AuditCandidates(s, j, semantic).Some? <==> forall x <- semantic :: AboutClaims(x, s.judgments[j].claims)
    ensures AuditCandidates(s, j, semantic).Some? ==>
              AuditCandidates(s, j, semantic).value == Precheck(s.uses, s.judgments[j].claims) + semantic
  {
    var claims := s.judgments[j].claims;
    var found := Precheck(s.uses, claims);
    PrecheckMeans(s.uses, claims);
    forall x | x in found + semantic ensures x.claims <= ClaimIds(claims) <==> AboutClaims(x, claims) {
      AboutIsKnown(x, claims);
    }
    forall x | x in found ensures AboutClaims(x, claims) {
      FoundAreAbout(s.uses, claims, found, x);
    }
  }

  /** In every store that commands reach, an audit commits exactly on a judgment that is not superseded, at its
      revision, with findings of the reader about its claims only, when the judgment was not audited yet or is
      blocked, or will be blocked by this audit. */
  lemma {:induction false} AuditsExactly(commands: seq<Command>, s: Store, j: Id, revision: nat,
                                         semantic: seq<Candidate>)
    requires s == Run(EMPTY, commands) && j in s.judgments
    ensures AuditStep(s, j, revision, semantic).Some?
            <==> && !s.judgments[j].superseded && s.judgments[j].revision == revision
                 && (forall x <- semantic :: AboutClaims(x, s.judgments[j].claims))
                 && (s.judgments[j].status == Pending || s.judgments[j].status == Passed(Blocked)
                     || SomeUnsound(s.uses, s.judgments[j].claims) || HasBlocking(semantic))
  {
    SoundRun(EMPTY, commands);
    assert JudgmentSound(s.judgments[j], s.uses);
    CandidatesExist(s, j, semantic);
    GateMeans(s.uses, s.judgments[j].claims, semantic);
    if !s.judgments[j].superseded && AuditCandidates(s, j, semantic).Some? {
      ReauditOnlyBlocks(s, j, semantic);
    }
  }

  /** In every store that commands reach, the judgment of every disposition has no core claim that is without
      links or rationale or whose evidence is missing or against it, and links no invalid evidence; and a
      disposition to observe has no core claim that its evidence carries only in part. */
  lemma {:induction false} DispositionsRestOnSoundClaims(commands: seq<Command>, d: Disposition, claims: seq<Claim>)
    requires d in Run(EMPTY, commands).dispositions
    ensures d.judgment in Run(EMPTY, commands).judgments
    ensures claims == Run(EMPTY, commands).judgments[d.judgment].claims ==>
              && (forall c <- claims :: c.core ==>
                    c.links != [] && c.hasRationale && c.evidence !in {Unassessed, Insufficient, Contradicted})
              && (forall c <- claims, l <- c.links ::
                    l in Run(EMPTY, commands).uses && Run(EMPTY, commands).uses[l].valid)
              && (d.kind == Observe ==>
                    forall c <- claims :: c.core ==> c.evidence !in {PartiallySupported, Mixed})
  {
    SoundRun(EMPTY, commands);
    var s := Run(EMPTY, commands);
    assert DispositionSound(d, s.judgments, s.uses);
    assert JudgmentSound(s.judgments[d.judgment], s.uses);
    if claims == s.judgments[d.judgment].claims {
      forall c | c in claims ensures !Unsound(s.uses, c) && Known(s.uses, c.links) {
      }
      if d.kind == Observe {
        forall c | c in claims ensures !Weak(c) {
        }
      }
    }
  }
}
