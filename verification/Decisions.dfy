/**
  Judgments, their audits, and the dispositions users accept on them.

  The store is a set of tables with one counter for fresh ids; `issuedBy` and `dispositions` are kept
  as a history.  `Apply` is what one command does to the store, or None when it raises and the
  transaction is rolled back.
 */
module Decisions {
  import opened Options

  type Id = nat

  // ----- rows

  datatype EvidenceStatus =
    | Unassessed | Supported | PartiallySupported | Mixed | Contradicted | Insufficient | NotApplicable

  datatype EvidenceUse = EvidenceUse(run: Id, unit: Id, valid: bool)

  datatype EpistemicType = Fact | Interpretation | Inference | Analogy | Hypothesis

  datatype ExpressionRole =
    | CoreJudgment | Supplement | Counterargument | Recommendation | OpenQuestion | UserReflection

  datatype Profile =
    | FactProfile | InterpretationProfile | InferenceProfile | HypothesisProfile | RecommendationProfile

  // A claim as a draft request states it.
  datatype ClaimCandidate = ClaimCandidate(
    core: bool, role: ExpressionRole, epistemic: EpistemicType, profile: Profile, evidence: EvidenceStatus,
    links: seq<Id>)

  datatype Claim = Claim(id: Id, core: bool, hasRationale: bool, evidence: EvidenceStatus, links: seq<Id>)

  datatype Severity = Warning | Blocking

  datatype Candidate = Candidate(claims: set<Id>, severity: Severity)

  datatype Finding = Finding(audit: Id, claims: set<Id>, severity: Severity)

  datatype Gate = Acceptable | Provisional | Blocked

  datatype AuditStatus = Pending | Passed(gate: Gate)

  datatype Audit = Audit(judgment: Id, findings: seq<Id>, gate: Gate)

  datatype Use = Understanding | ResearchPlanning | Observation | LowRiskExperiment | ReversibleAction

  datatype Fitness = Fitness(judgment: Id, allowed: set<Use>, forbidden: set<Use>)

  datatype Acknowledgement = Acknowledgement(finding: Id, judgment: Id)

  datatype Judgment = Judgment(
    researchCase: Id, run: Id, version: nat, revision: nat, superseded: bool, claims: seq<Claim>,
    status: AuditStatus, currentAudit: Option<Id>, fitness: Option<Id>, previous: Option<Id>)

  datatype Kind =
    | ProceedToAction | ContinueResearch | DeferDecision | Observe | Discard | ExplicitNoAction | KnowledgeOnlyClosure

  datatype Decision = Undecided | Accepted | Adjusted | Rejected

  datatype Lifecycle = Current | Superseded | Withdrawn

  // Whether a proposal carries a date to defer to and a condition to observe.
  datatype Terms = Terms(deferUntil: bool, observation: bool)

  datatype Proposal = Proposal(
    series: Id, researchCase: Id, judgment: Id, fitness: Id, kind: Kind, terms: Terms, decision: Decision,
    lifecycle: Lifecycle, version: nat, revision: nat, acks: seq<Id>, previous: Option<Id>)

  datatype Disposition = Disposition(researchCase: Id, source: Id, judgment: Id, fitness: Id, kind: Kind,
                                     supersedes: Option<Id>)

  datatype CaseRun = CaseRun(researchCase: Id, revision: nat, active: bool)

  datatype Case = Case(revision: nat, disposition: Option<Id>)

  datatype Store = Store(
    next: Id,
    cases: map<Id, Case>,
    runs: map<Id, CaseRun>,
    uses: map<Id, EvidenceUse>,
    currentJudgment: map<Id, Id>,
    judgments: map<Id, Judgment>,
    audits: map<Id, Audit>,
    findings: map<Id, Finding>,
    fitnesses: map<Id, Fitness>,
    issuedBy: map<Id, Id>,
    acks: map<Id, Acknowledgement>,
    currentProposal: map<Id, Id>,
    proposals: map<Id, Proposal>,
    dispositions: seq<Disposition>)

  const EMPTY := Store(0, map[], map[], map[], map[], map[], map[], map[], map[], map[], map[], map[], map[], [])

  // ----- commands

  datatype Command =
    | OpenCase
    | OpenRun(researchCase: Id)
    | MoveRun(run: Id, active: bool)
    | RecordUse(run: Id, unit: Id, valid: bool)
    | CreateDraft(run: Id, expectedRevision: nat, claims: seq<ClaimCandidate>)
    | RunAudit(judgment: Id, expectedRevision: nat, semantic: seq<Candidate>)
    | Acknowledge(finding: Id, judgment: Id, expectedRevision: nat)
    | CreateProposal(judgment: Id, expectedRevision: nat, kind: Kind, terms: Terms, acks: seq<Id>)
    | AdjustProposal(proposal: Id, expectedRevision: nat, kind: Kind, terms: Terms)
    | RejectProposal(proposal: Id, expectedRevision: nat)
    | AcceptProposal(proposal: Id, expectedRevision: nat, judgment: Id, fitness: Id, acks: seq<Id>)

  // ----- the audit

  function LinkFindings(uses: map<Id, EvidenceUse>, claim: Id, links: seq<Id>): seq<Candidate>
    requires Known(uses, links)
  {
    if links == [] then []
    else (if uses[links[0]].valid then [] else [Candidate({claim}, Blocking)]) + LinkFindings(uses, claim, links[1..])
  }

  // The findings a core claim earns by itself.
  function CoreFindings(c: Claim): seq<Candidate> {
    if !c.core then []
    else
      (if c.links == [] then [Candidate({c.id}, Blocking)] else [])
      + (if !c.hasRationale then [Candidate({c.id}, Blocking)] else [])
      + match c.evidence
        case Unassessed | Insufficient | Contradicted => [Candidate({c.id}, Blocking)]
        case PartiallySupported | Mixed => [Candidate({c.id}, Warning)]
        case _ => []
  }

  // The findings about one claim that need no reader.
  function ClaimFindings(uses: map<Id, EvidenceUse>, c: Claim): seq<Candidate>
    requires Known(uses, c.links)
  {
    CoreFindings(c) + LinkFindings(uses, c.id, c.links)
  }

  predicate Known(uses: map<Id, EvidenceUse>, links: seq<Id>) {
    forall l <- links :: l in uses
  }

  predicate LinksKnown(uses: map<Id, EvidenceUse>, claims: seq<Claim>) {
    forall c <- claims :: Known(uses, c.links)
  }

  function Precheck(uses: map<Id, EvidenceUse>, claims: seq<Claim>): seq<Candidate>
    requires LinksKnown(uses, claims)
  {
    if claims == [] then [] else ClaimFindings(uses, claims[0]) + Precheck(uses, claims[1..])
  }

  function GateOf(candidates: seq<Candidate>): Gate {
    if exists c <- candidates :: c.severity == Blocking then Blocked
    else if exists c <- candidates :: c.severity == Warning then Provisional
    else Acceptable
  }

  function AllowedUses(gate: Gate): set<Use> {
    if gate == Acceptable then {Understanding, ResearchPlanning, Observation} else {Understanding, ResearchPlanning}
  }

  const FORBIDDEN_USES: set<Use> := {LowRiskExperiment, ReversibleAction}

  function ClaimIds(claims: seq<Claim>): set<Id> {
    set c <- claims :: c.id
  }

  // All findings of an audit, the deterministic ones first.
  function AuditCandidates(s: Store, j: Id, semantic: seq<Candidate>): Option<seq<Candidate>>
    requires j in s.judgments
  {
    var claims := s.judgments[j].claims;
    if !LinksKnown(s.uses, claims) then None
    else
      var all := Precheck(s.uses, claims) + semantic;
      if forall c <- all :: c.claims <= ClaimIds(claims) then Some(all) else None
  }

  function FindingIds(first: Id, count: nat): (ids: seq<Id>)
    ensures |ids| == count && forall i :: 0 <= i < count ==> ids[i] == first + i
  {
    seq(count, i requires 0 <= i < count => first + i)
  }

  function FindingRows(audit: Id, first: Id, candidates: seq<Candidate>): map<Id, Finding> {
    if candidates == [] then map[]
    else
      var n := |candidates| - 1;
      var row := Finding(audit, candidates[n].claims, candidates[n].severity);
      FindingRows(audit, first, candidates[..n])[first + n := row]
  }

  lemma {:induction false} RowsAreCandidates(audit: Id, first: Id, candidates: seq<Candidate>)
    ensures forall id :: id in FindingRows(audit, first, candidates) <==> first <= id < first + |candidates|
    ensures forall id <- FindingRows(audit, first, candidates) ::
              FindingRows(audit, first, candidates)[id].audit == audit
              && FindingRows(audit, first, candidates)[id].severity == candidates[id - first].severity
              && FindingRows(audit, first, candidates)[id].claims == candidates[id - first].claims
  {
    if candidates != [] {
      RowsAreCandidates(audit, first, candidates[..|candidates| - 1]);
    }
  }

  // A completed audit: the audit and its findings, then a fitness unless it blocks, then the judgment.
  function WithAudit(s: Store, audit: Id, row: Audit, candidates: seq<Candidate>): Store {
    s.(audits := s.audits[audit := row], findings := s.findings + FindingRows(audit, audit + 1, candidates))
  }

  function WithFitness(s: Store, fitness: Id, audit: Id, row: Fitness): Store {
    s.(fitnesses := s.fitnesses[fitness := row], issuedBy := s.issuedBy[fitness := audit])
  }

  function WithGate(s: Store, j: Id, audit: Id, gate: Gate, fitness: Id, expectedRevision: nat): Store
    requires j in s.judgments
  {
    s.(next := fitness + 1, judgments := s.judgments[j := s.judgments[j].(
      status := Passed(gate), currentAudit := Some(audit),
      fitness := if gate == Blocked then None else Some(fitness), revision := expectedRevision + 1)])
  }

  function StoredAudit(
    s: Store, j: Id, expectedRevision: nat, gate: Gate, ids: seq<Id>, candidates: seq<Candidate>, fitness: Id): Store
    requires j in s.judgments
  {
    var audited := WithAudit(s, s.next, Audit(j, ids, gate), candidates);
    var issued := if gate == Blocked then audited
                  else WithFitness(audited, fitness, s.next, Fitness(j, AllowedUses(gate), FORBIDDEN_USES));
    WithGate(issued, j, s.next, gate, fitness, expectedRevision)
  }

  function AuditedStore(s: Store, j: Id, expectedRevision: nat, candidates: seq<Candidate>): Store
    requires j in s.judgments
  {
    var first := s.next + 1;
    StoredAudit(s, j, expectedRevision, GateOf(candidates), FindingIds(first, |candidates|), candidates,
                first + |candidates|)
  }

  function AuditStep(s: Store, j: Id, expectedRevision: nat, semantic: seq<Candidate>): Option<Store> {
    if j !in s.judgments || s.judgments[j].superseded || s.judgments[j].revision != expectedRevision then None
    else
      match AuditCandidates(s, j, semantic)
      case None => None
      case Some(candidates) =>
        // A new fitness is refused while the judgment still carries another one.
        if GateOf(candidates) != Blocked && s.judgments[j].fitness.Some? then None
        else Some(AuditedStore(s, j, expectedRevision, candidates))
  }

  function AcknowledgeStep(s: Store, finding: Id, j: Id, expectedRevision: nat): Option<Store> {
    if j !in s.judgments || s.judgments[j].revision != expectedRevision then None
    else if finding !in s.findings || s.findings[finding].severity != Warning then None
    else if s.findings[finding].audit !in s.audits || s.audits[s.findings[finding].audit].judgment != j then None
    else Some(s.(next := s.next + 1, acks := s.acks[s.next := Acknowledgement(finding, j)]))
  }

  // ----- proposals

  function UseOf(kind: Kind): Use {
    match kind
    case ProceedToAction => ReversibleAction
    case ContinueResearch => ResearchPlanning
    case Observe => Observation
    case DeferDecision | Discard | ExplicitNoAction | KnowledgeOnlyClosure => Understanding
  }

  predicate TermsFit(kind: Kind, terms: Terms) {
    terms == match kind
             case DeferDecision => Terms(true, false)
             case Observe => Terms(false, true)
             case _ => Terms(false, false)
  }

  predicate Distinct(ids: seq<Id>) {
    forall i, j :: 0 <= i < j < |ids| ==> ids[i] != ids[j]
  }

  // The warnings of an audit.
  function Warnings(findings: map<Id, Finding>, audit: Id): set<Id> {
    set f <- findings | findings[f].audit == audit && findings[f].severity == Warning
  }

  // Some acknowledgement of the list is about this finding.
  predicate Acknowledged(acks: map<Id, Acknowledgement>, list: seq<Id>, finding: Id) {
    exists i :: 0 <= i < |list| && list[i] in acks && acks[list[i]].finding == finding
  }

  predicate AllOfJudgment(acks: map<Id, Acknowledgement>, list: seq<Id>, j: Id) {
    forall i :: 0 <= i < |list| ==> list[i] in acks && acks[list[i]].judgment == j
  }

  function RequiredWarnings(s: Store, j: Id): set<Id>
    requires j in s.judgments
  {
    if s.judgments[j].currentAudit.Some? then Warnings(s.findings, s.judgments[j].currentAudit.value) else {}
  }

  predicate WarningsAcknowledged(s: Store, j: Id, acks: seq<Id>)
    requires j in s.judgments
  {
    AllOfJudgment(s.acks, acks, j) && forall f <- RequiredWarnings(s, j) :: Acknowledged(s.acks, acks, f)
  }

  // The judgment passed its audit and the fitness it carries allows the kind of disposition.
  predicate CanPropose(s: Store, j: Id, fitness: Option<Id>, kind: Kind, acks: seq<Id>) {
    && j in s.judgments
    && s.judgments[j].status in {Passed(Acceptable), Passed(Provisional)}
    && fitness.Some? && fitness == s.judgments[j].fitness
    && fitness.value in s.fitnesses && s.fitnesses[fitness.value].judgment == j
    && UseOf(kind) !in s.fitnesses[fitness.value].forbidden
    && UseOf(kind) in s.fitnesses[fitness.value].allowed
    && WarningsAcknowledged(s, j, acks)
  }

  // Whether a first version of a proposal may be stored.
  predicate CreateAllowed(s: Store, j: Id, expectedRevision: nat, kind: Kind, terms: Terms, acks: seq<Id>) {
    && j in s.judgments && s.judgments[j].revision == expectedRevision
    && Distinct(acks) && TermsFit(kind, terms)
    && CanPropose(s, j, s.judgments[j].fitness, kind, acks)
  }

  function FirstVersion(s: Store, j: Id, kind: Kind, terms: Terms, acks: seq<Id>): Proposal
    requires j in s.judgments && s.judgments[j].fitness.Some?
  {
    Proposal(s.next, s.judgments[j].researchCase, j, s.judgments[j].fitness.value, kind, terms,
             Undecided, Current, 1, 1, acks, None)
  }

  function AddProposal(s: Store, row: Proposal): Store {
    s.(next := s.next + 2, currentProposal := s.currentProposal[s.next := s.next + 1],
       proposals := s.proposals[s.next + 1 := row])
  }

  function CreateProposalStep(
    s: Store, j: Id, expectedRevision: nat, kind: Kind, terms: Terms, acks: seq<Id>): Option<Store>
  {
    if CreateAllowed(s, j, expectedRevision, kind, terms, acks)
    then Some(AddProposal(s, FirstVersion(s, j, kind, terms, acks)))
    else None
  }

  predicate IsLatest(s: Store, p: Id)
    requires p in s.proposals
  {
    s.proposals[p].series in s.currentProposal && s.currentProposal[s.proposals[p].series] == p
  }

  predicate AdjustAllowed(s: Store, p: Id, expectedRevision: nat, kind: Kind, terms: Terms) {
    && p in s.proposals && s.proposals[p].revision == expectedRevision && s.proposals[p].lifecycle == Current
    && TermsFit(kind, terms)
    && CanPropose(s, s.proposals[p].judgment, Some(s.proposals[p].fitness), kind, s.proposals[p].acks)
    && IsLatest(s, p)
  }

  // The adjusted proposal is a new version; the version before it is superseded.
  function AdjustedStore(s: Store, p: Id, kind: Kind, terms: Terms): Store
    requires p in s.proposals
  {
    var prior := s.proposals[p];
    var row := prior.(kind := kind, terms := terms, decision := Adjusted, lifecycle := Current,
                     version := prior.version + 1, revision := 1, previous := Some(p));
    s.(next := s.next + 1, currentProposal := s.currentProposal[prior.series := s.next],
       proposals := s.proposals[p := prior.(lifecycle := Superseded)][s.next := row])
  }

  function AdjustStep(s: Store, p: Id, expectedRevision: nat, kind: Kind, terms: Terms): Option<Store> {
    if AdjustAllowed(s, p, expectedRevision, kind, terms) then Some(AdjustedStore(s, p, kind, terms)) else None
  }

  function RejectStep(s: Store, p: Id, expectedRevision: nat): Option<Store> {
    if p !in s.proposals || s.proposals[p].revision != expectedRevision then None
    else
      Some(s.(proposals := s.proposals[p := s.proposals[p].(
        decision := Rejected, lifecycle := Withdrawn, revision := expectedRevision + 1)]))
  }

  predicate AcceptAllowed(s: Store, p: Id, expectedRevision: nat, j: Id, fitness: Id, acks: seq<Id>) {
    && p in s.proposals && s.proposals[p].revision == expectedRevision
    && s.proposals[p].judgment == j && s.proposals[p].fitness == fitness
    && Distinct(acks) && (set a <- acks) == (set a <- s.proposals[p].acks)
    && CanPropose(s, j, Some(fitness), s.proposals[p].kind, acks)
    && s.proposals[p].researchCase in s.cases && TermsFit(s.proposals[p].kind, s.proposals[p].terms) && IsLatest(s, p)
  }

  function AcceptedStore(s: Store, p: Id): Store
    requires p in s.proposals && s.proposals[p].researchCase in s.cases
  {
    var row := s.proposals[p];
    var prior := s.cases[row.researchCase];
    s.(next := s.next + 1,
       proposals := s.proposals[p := row.(decision := Accepted, revision := row.revision + 1)],
       dispositions := s.dispositions
                       + [Disposition(row.researchCase, p, row.judgment, row.fitness, row.kind, prior.disposition)],
       cases := s.cases[row.researchCase := Case(prior.revision + 1, Some(s.next))])
  }

  function AcceptStep(s: Store, p: Id, expectedRevision: nat, j: Id, fitness: Id, acks: seq<Id>): Option<Store> {
    if AcceptAllowed(s, p, expectedRevision, j, fitness, acks) then Some(AcceptedStore(s, p)) else None
  }

  // ----- drafts

  // The links of a claim, the first of each evidence unit.
  function KeptLinks(uses: map<Id, EvidenceUse>, links: seq<Id>, seen: set<Id>): seq<Id>
    requires Known(uses, links)
  {
    if links == [] then []
    else if uses[links[0]].unit in seen then KeptLinks(uses, links[1..], seen)
    else [links[0]] + KeptLinks(uses, links[1..], seen + {uses[links[0]].unit})
  }

  predicate UsableLinks(uses: map<Id, EvidenceUse>, run: Id, links: seq<Id>) {
    forall l <- links :: l in uses && uses[l].run == run && uses[l].valid
  }

  // The rationale a claim has to bring.
  function ProfileFor(role: ExpressionRole, epistemic: EpistemicType): Profile {
    if role == Recommendation then RecommendationProfile
    else
      match epistemic
      case Fact => FactProfile
      case Interpretation => InterpretationProfile
      case Inference | Analogy => InferenceProfile
      case Hypothesis => HypothesisProfile
  }

  predicate DemandsEvidence(role: ExpressionRole) {
    role == CoreJudgment || role == Recommendation
  }

  // What the request itself must keep.
  predicate WellShaped(c: ClaimCandidate) {
    && c.profile == ProfileFor(c.role, c.epistemic)
    && (DemandsEvidence(c.role) ==> c.links != [])
    && Distinct(c.links)
  }

  predicate UsableClaim(uses: map<Id, EvidenceUse>, run: Id, c: ClaimCandidate) {
    WellShaped(c) && UsableLinks(uses, run, c.links)
  }

  predicate UsableClaims(uses: map<Id, EvidenceUse>, run: Id, candidates: seq<ClaimCandidate>) {
    forall c <- candidates :: UsableClaim(uses, run, c)
  }

  function ClaimOf(uses: map<Id, EvidenceUse>, id: Id, c: ClaimCandidate): Claim
    requires Known(uses, c.links)
  {
    Claim(id, c.core, true, c.evidence, KeptLinks(uses, c.links, {}))
  }

  function ClaimsOf(uses: map<Id, EvidenceUse>, first: Id, candidates: seq<ClaimCandidate>): seq<Claim>
    requires forall c <- candidates :: Known(uses, c.links)
  {
    seq(|candidates|, i requires 0 <= i < |candidates| => ClaimOf(uses, first + i, candidates[i]))
  }

  predicate DraftRefused(s: Store, run: Id, expectedRevision: nat, candidates: seq<ClaimCandidate>) {
    || run !in s.runs || !s.runs[run].active || s.runs[run].revision != expectedRevision
    || (run in s.currentJudgment && s.currentJudgment[run] !in s.judgments)
    || candidates == [] || !UsableClaims(s.uses, run, candidates)
  }

  // A new judgment of a run supersedes the one before it.
  function WithJudgment(rows: map<Id, Judgment>, previous: Option<Id>, j: Id, row: Judgment): map<Id, Judgment>
    requires previous.Some? ==> previous.value in rows
  {
    match previous
    case None => rows[j := row]
    case Some(p) =>
      rows[p := rows[p].(superseded := true)][j := row.(version := rows[p].version + 1, previous := previous)]
  }

  function CurrentOf(s: Store, run: Id): Option<Id> {
    if run in s.currentJudgment then Some(s.currentJudgment[run]) else None
  }

  function AddJudgment(s: Store, run: Id, row: Judgment, next: Id): Store
    requires run in s.currentJudgment ==> s.currentJudgment[run] in s.judgments
  {
    s.(next := next, currentJudgment := s.currentJudgment[run := s.next],
       judgments := WithJudgment(s.judgments, CurrentOf(s, run), s.next, row))
  }

  function DraftStep(s: Store, run: Id, expectedRevision: nat, candidates: seq<ClaimCandidate>): Option<Store> {
    if DraftRefused(s, run, expectedRevision, candidates) then None
    else
      var claims := ClaimsOf(s.uses, s.next + 1, candidates);
      var row := Judgment(s.runs[run].researchCase, run, 1, 1, false, claims, Pending, None, None, None);
      Some(AddJudgment(s, run, row, s.next + 1 + |candidates|))
  }

  // Something outside this part of the program changed the run.
  function MoveRunStep(s: Store, run: Id, active: bool): Option<Store> {
    if run !in s.runs then None
    else Some(s.(runs := s.runs[run := CaseRun(s.runs[run].researchCase, s.runs[run].revision + 1, active)]))
  }

  function OpenRunStep(s: Store, researchCase: Id): Option<Store> {
    if researchCase !in s.cases then None
    else Some(s.(next := s.next + 1, runs := s.runs[s.next := CaseRun(researchCase, 1, true)]))
  }

  function RecordUseStep(s: Store, run: Id, unit: Id, valid: bool): Option<Store> {
    if run !in s.runs then None
    else Some(s.(next := s.next + 1, uses := s.uses[s.next := EvidenceUse(run, unit, valid)]))
  }

  function Apply(s: Store, c: Command): Option<Store> {
    match c
    case OpenCase => Some(s.(next := s.next + 1, cases := s.cases[s.next := Case(1, None)]))
    case OpenRun(researchCase) => OpenRunStep(s, researchCase)
    case MoveRun(run, active) => MoveRunStep(s, run, active)
    case RecordUse(run, unit, valid) => RecordUseStep(s, run, unit, valid)
    case CreateDraft(run, revision, claims) => DraftStep(s, run, revision, claims)
    case RunAudit(j, revision, semantic) => AuditStep(s, j, revision, semantic)
    case Acknowledge(finding, j, revision) => AcknowledgeStep(s, finding, j, revision)
    case CreateProposal(j, revision, kind, terms, acks) => CreateProposalStep(s, j, revision, kind, terms, acks)
    case AdjustProposal(p, revision, kind, terms) => AdjustStep(s, p, revision, kind, terms)
    case RejectProposal(p, revision) => RejectStep(s, p, revision)
    case AcceptProposal(p, revision, j, fitness, acks) => AcceptStep(s, p, revision, j, fitness, acks)
  }

  function Next(s: Store, c: Command): Store {
    var t := Apply(s, c);
    if t.Some? then t.value else s
  }

  function Run(s: Store, commands: seq<Command>): Store {
    if commands == [] then s
    else Next(Run(s, commands[..|commands| - 1]), commands[|commands| - 1])
  }
}
