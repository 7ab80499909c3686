/**
  Research runs: their attempts, the outcome that ends them, and the revision each command must name.

  `Apply` is what one command does to the store, or None when it raises and the transaction is rolled
  back.  `MarkStale` stands for whatever outside the command handlers marks an open attempt stale, and
  `ChangeSetting` for the commands on cases, questions, scopes and plans.
 */
module ResearchRuns {
  import opened Options

  type Id = nat

  datatype AttemptStatus = Created | Running | Completed | Failed | Cancelled | Stale

  predicate AttemptEnded(status: AttemptStatus) {
    status in {Completed, Failed, Cancelled, Stale}
  }

  datatype Attempt = Attempt(id: Id, number: nat, status: AttemptStatus, previous: Option<Id>)

  datatype RunStatus = RunCreated | RunRunning | AwaitingUser | RunCompleted | RunFailed | RunCancelled | RunSuperseded

  predicate RunEnded(status: RunStatus) {
    status in {RunCompleted, RunFailed, RunCancelled, RunSuperseded}
  }

  datatype OutcomeType =
    | CompletedWithJudgment | InsufficientEvidence | AuditBlocked | ExecutionFailed
    | CancelledByUser | DeferredBeforeJudgment | SupersededByNewRun

  function StatusFor(outcome: OutcomeType): RunStatus {
    match outcome
    case CompletedWithJudgment | InsufficientEvidence | AuditBlocked | DeferredBeforeJudgment => RunCompleted
    case ExecutionFailed => RunFailed
    case CancelledByUser => RunCancelled
    case SupersededByNewRun => RunSuperseded
  }

  predicate JudgmentFits(outcome: OutcomeType, judgment: Option<Id>) {
    judgment.Some? <==> outcome in {CompletedWithJudgment, AuditBlocked}
  }

  datatype Case = Case(open: bool, revision: nat)

  datatype Scope = Scope(researchCase: Id, current: bool)

  datatype Plan = Plan(researchCase: Id, scope: Id, current: bool)

  // The rows that runs are started on; a question names its case and a source binding its scope.
  datatype Setting = Setting(
    cases: map<Id, Case>, questions: map<Id, Id>, scopes: map<Id, Scope>, plans: map<Id, Plan>, bindings: map<Id, Id>)

  // What a run is about: its case and question, the scope it may search and the plan it follows.
  datatype Inputs = Inputs(researchCase: Id, question: Id, scope: Id, plan: Id)

  // A run with its attempts in the order of their numbers.
  datatype ResearchRun = ResearchRun(inputs: Inputs, status: RunStatus, revision: nat, attempts: seq<Attempt>)

  datatype Retrieval = Retrieval(run: Id, attempt: Id, binding: Id)

  datatype Store = Store(
    next: Id, setting: Setting, runs: map<Id, ResearchRun>, outcomes: map<Id, OutcomeType>, starts: map<string, Id>,
    retrievals: seq<Retrieval>)

  const EMPTY := Store(0, Setting(map[], map[], map[], map[], map[]), map[], map[], map[], [])

  datatype Command =
    | ChangeSetting(setting: Setting)
    | StartRun(key: string, inputs: Inputs, caseRevision: nat)
    | StartAttempt(run: Id, expectedRevision: nat)
    | RecordRetrieval(run: Id, expectedRevision: nat, attempt: Id, binding: Id)
    | SubmitResult(run: Id, expectedRevision: nat, attempt: Id, outcome: OutcomeType, judgment: Option<Id>)
    | CancelRun(run: Id, expectedRevision: nat)
    | MarkStale(run: Id, attempt: Id)

  // ----- steps

  // The case is open at the expected revision, question, scope and plan are of this case, scope and plan
  // are current, and the plan is for the scope.
  predicate InputsFit(setting: Setting, inputs: Inputs, caseRevision: nat) {
    && inputs.researchCase in setting.cases && setting.cases[inputs.researchCase] == Case(true, caseRevision)
    && inputs.question in setting.questions && setting.questions[inputs.question] == inputs.researchCase
    && inputs.scope in setting.scopes && setting.scopes[inputs.scope] == Scope(inputs.researchCase, true)
    && inputs.plan in setting.plans && setting.plans[inputs.plan] == Plan(inputs.researchCase, inputs.scope, true)
  }

  function StartRunStep(s: Store, key: string, inputs: Inputs, caseRevision: nat): Option<Store> {
    // The checkpoint of the start is stored under the key of the request.
    if !InputsFit(s.setting, inputs, caseRevision) || key in s.starts then None
    else
      var run := ResearchRun(inputs, RunRunning, 1, [Attempt(s.next + 1, 1, Running, None)]);
      Some(s.(next := s.next + 2, runs := s.runs[s.next := run], starts := s.starts[key := s.next]))
  }

  predicate Active(s: Store, r: Id, expectedRevision: nat) {
    r in s.runs && !RunEnded(s.runs[r].status) && s.runs[r].revision == expectedRevision
  }

  function NextAttempt(attempts: seq<Attempt>, id: Id): Attempt {
    if attempts == [] then Attempt(id, 1, Running, None)
    else
      var last := attempts[|attempts| - 1];
      Attempt(id, last.number + 1, Running, Some(last.id))
  }

  function StartAttemptStep(s: Store, r: Id, expectedRevision: nat): Option<Store> {
    if !Active(s, r, expectedRevision) then None
    else
      var attempts := s.runs[r].attempts;
      if attempts != [] && !AttemptEnded(attempts[|attempts| - 1].status) then None
      else
        var run := ResearchRun(s.runs[r].inputs, RunRunning, expectedRevision + 1,
                               attempts + [NextAttempt(attempts, s.next)]);
        Some(s.(next := s.next + 1, runs := s.runs[r := run]))
  }

  // The place of an attempt among those of its run.
  function Find(attempts: seq<Attempt>, id: Id): (i: Option<nat>)
    ensures i.Some? ==> i.value < |attempts| && attempts[i.value].id == id
    ensures i.None? ==> forall a <- attempts :: a.id != id
  {
    if attempts == [] then None
    else if attempts[|attempts| - 1].id == id then Some(|attempts| - 1)
    else Find(attempts[..|attempts| - 1], id)
  }

  // The source binding is one of the scope the run may search.
  predicate BindingFits(s: Store, r: Id, binding: Id)
    requires r in s.runs
  {
    binding in s.setting.bindings && s.setting.bindings[binding] == s.runs[r].inputs.scope
  }

  function RecordRetrievalStep(s: Store, r: Id, expectedRevision: nat, attempt: Id, binding: Id): Option<Store> {
    if !Active(s, r, expectedRevision) then None
    else
      var i := Find(s.runs[r].attempts, attempt);
      if i.None? || s.runs[r].attempts[i.value].status != Running || !BindingFits(s, r, binding) then None
      else Some(s.(next := s.next + 1, retrievals := s.retrievals + [Retrieval(r, attempt, binding)]))
  }

  function Ended(attempts: seq<Attempt>, i: nat, status: AttemptStatus): seq<Attempt>
    requires i < |attempts|
  {
    attempts[i := attempts[i].(status := status)]
  }

  function EndedBy(outcome: OutcomeType): AttemptStatus {
    if outcome == ExecutionFailed then Failed else Completed
  }

  // The outcome of a run ends it; there is at most one, and nothing here names the run that supersedes it.
  function CommitOutcome(
    s: Store, r: Id, expectedRevision: nat, attempts: seq<Attempt>, outcome: OutcomeType): Option<Store>
    requires r in s.runs
  {
    if outcome == SupersededByNewRun || r in s.outcomes then None
    else
      Some(s.(next := s.next + 1, outcomes := s.outcomes[r := outcome],
              runs := s.runs[r := ResearchRun(s.runs[r].inputs, StatusFor(outcome), expectedRevision + 1, attempts)]))
  }

  function SubmitResultStep(
    s: Store, r: Id, expectedRevision: nat, attempt: Id, outcome: OutcomeType, judgment: Option<Id>): Option<Store>
  {
    if !Active(s, r, expectedRevision) then None
    else
      var i := Find(s.runs[r].attempts, attempt);
      if i.None? || s.runs[r].attempts[i.value].status != Running || !JudgmentFits(outcome, judgment) then None
      else CommitOutcome(s, r, expectedRevision, Ended(s.runs[r].attempts, i.value, EndedBy(outcome)), outcome)
  }

  function Cancel(a: Attempt): Attempt {
    if AttemptEnded(a.status) then a else a.(status := Cancelled)
  }

  function CancelAll(attempts: seq<Attempt>): seq<Attempt> {
    seq(|attempts|, i requires 0 <= i < |attempts| => Cancel(attempts[i]))
  }

  function CancelRunStep(s: Store, r: Id, expectedRevision: nat): Option<Store> {
    if !Active(s, r, expectedRevision) then None
    else CommitOutcome(s, r, expectedRevision, CancelAll(s.runs[r].attempts), CancelledByUser)
  }

  function MarkStaleStep(s: Store, r: Id, attempt: Id): Option<Store> {
    if r !in s.runs then None
    else
      var i := Find(s.runs[r].attempts, attempt);
      if i.None? || AttemptEnded(s.runs[r].attempts[i.value].status) then None
      else Some(s.(runs := s.runs[r := s.runs[r].(attempts := Ended(s.runs[r].attempts, i.value, Stale))]))
  }

  function Apply(s: Store, c: Command): Option<Store> {
    match c
    case ChangeSetting(setting) => Some(s.(setting := setting))
    case StartRun(key, inputs, revision) => StartRunStep(s, key, inputs, revision)
    case StartAttempt(r, revision) => StartAttemptStep(s, r, revision)
    case RecordRetrieval(r, revision, attempt, binding) => RecordRetrievalStep(s, r, revision, attempt, binding)
    case SubmitResult(r, revision, attempt, outcome, judgment) =>
      SubmitResultStep(s, r, revision, attempt, outcome, judgment)
    case CancelRun(r, revision) => CancelRunStep(s, r, revision)
    case MarkStale(r, attempt) => MarkStaleStep(s, r, attempt)
  }

  function Next(s: Store, c: Command): Store {
    var t := Apply(s, c);
    if t.Some? then t.value else s
  }

  function Run(s: Store, commands: seq<Command>): Store {
    if commands == [] then s
    else Next(Run(s, commands[..|commands| - 1]), commands[|commands| - 1])
  }

  // ----- what every run of commands keeps

  ghost predicate Linked(attempts: seq<Attempt>, i: nat)
    requires i < |attempts|
  {
    attempts[i].number == i + 1 && attempts[i].previous == if i == 0 then None else Some(attempts[i - 1].id)
  }

  // Attempts are numbered 1..n and linked backwards; every one but the last was marked stale.
  ghost predicate AttemptsChained(attempts: seq<Attempt>) {
    && attempts != []
    && (forall i :: 0 <= i < |attempts| ==> Linked(attempts, i))
    && (forall i :: 0 <= i < |attempts| - 1 ==> attempts[i].status == Stale)
  }

  ghost predicate AttemptsNamed(attempts: seq<Attempt>, next: Id) {
    && (forall i :: 0 <= i < |attempts| ==> attempts[i].id < next)
    && (forall i, k :: 0 <= i < k < |attempts| ==> attempts[i].id != attempts[k].id)
  }

  function LastStatus(attempts: seq<Attempt>): AttemptStatus
    requires attempts != []
  {
    attempts[|attempts| - 1].status
  }

  // An active run has no outcome, and its last attempt is running or stale; an ended run has the outcome
  // its status stands for, and no open attempt.
  ghost predicate OutcomeKept(run: ResearchRun, r: Id, outcomes: map<Id, OutcomeType>)
    requires run.attempts != []
  {
    if RunEnded(run.status)
    then r in outcomes && run.status == StatusFor(outcomes[r]) && outcomes[r] != SupersededByNewRun
         && AttemptEnded(LastStatus(run.attempts))
    else r !in outcomes && run.status == RunRunning && LastStatus(run.attempts) in {Running, Stale}
  }

  ghost predicate RunKept(run: ResearchRun, r: Id, outcomes: map<Id, OutcomeType>, next: Id) {
    AttemptsChained(run.attempts) && AttemptsNamed(run.attempts, next) && OutcomeKept(run, r, outcomes)
  }

  ghost predicate Inv(s: Store) {
    && (forall r <- s.runs :: r < s.next && RunKept(s.runs[r], r, s.outcomes, s.next))
    && (forall r <- s.outcomes :: r in s.runs)
  }

  lemma AppendChained(attempts: seq<Attempt>, id: Id)
    requires AttemptsChained(attempts) && AttemptsNamed(attempts, id) && LastStatus(attempts) == Stale
    ensures AttemptsChained(attempts + [NextAttempt(attempts, id)])
            && AttemptsNamed(attempts + [NextAttempt(attempts, id)], id + 1)
  {
    var after := attempts + [NextAttempt(attempts, id)];
    forall i | 0 <= i < |after| ensures Linked(after, i) {
      if i < |attempts| {
        assert Linked(attempts, i);
      } else {
        assert Linked(attempts, |attempts| - 1);
      }
    }
  }

  lemma StartAttemptKept(s: Store, r: Id, revision: nat)
    requires Inv(s) && StartAttemptStep(s, r, revision).Some?
    ensures Inv(StartAttemptStep(s, r, revision).value)
  {
    var t := StartAttemptStep(s, r, revision).value;
    assert RunKept(s.runs[r], r, s.outcomes, s.next);
    AppendChained(s.runs[r].attempts, s.next);
  }

  lemma {:induction false} FindRunning(attempts: seq<Attempt>, id: Id)
    requires AttemptsChained(attempts) && Find(attempts, id).Some? && attempts[Find(attempts, id).value].status != Stale
    ensures Find(attempts, id).value == |attempts| - 1
  {
  }

  lemma EndLast(attempts: seq<Attempt>, status: AttemptStatus, next: Id)
    requires AttemptsChained(attempts) && AttemptsNamed(attempts, next)
    ensures AttemptsChained(Ended(attempts, |attempts| - 1, status))
            && AttemptsNamed(Ended(attempts, |attempts| - 1, status), next)
    ensures LastStatus(Ended(attempts, |attempts| - 1, status)) == status
  {
    var after := Ended(attempts, |attempts| - 1, status);
    forall i | 0 <= i < |after| ensures Linked(after, i) {
      assert Linked(attempts, i);
    }
  }

  lemma SubmitKept(s: Store, r: Id, revision: nat, attempt: Id, outcome: OutcomeType, judgment: Option<Id>)
    requires Inv(s) && SubmitResultStep(s, r, revision, attempt, outcome, judgment).Some?
    ensures Inv(SubmitResultStep(s, r, revision, attempt, outcome, judgment).value)
  {
    var attempts := s.runs[r].attempts;
    assert RunKept(s.runs[r], r, s.outcomes, s.next);
    FindRunning(attempts, attempt);
    EndLast(attempts, EndedBy(outcome), s.next);
  }

  lemma CancelLast(attempts: seq<Attempt>)
    requires AttemptsChained(attempts)
    ensures CancelAll(attempts) == Ended(attempts, |attempts| - 1, Cancel(attempts[|attempts| - 1]).status)
    ensures AttemptEnded(LastStatus(CancelAll(attempts)))
  {
  }

  lemma CancelKept(s: Store, r: Id, revision: nat)
    requires Inv(s) && CancelRunStep(s, r, revision).Some?
    ensures Inv(CancelRunStep(s, r, revision).value)
  {
    var attempts := s.runs[r].attempts;
    assert RunKept(s.runs[r], r, s.outcomes, s.next);
    CancelLast(attempts);
    EndLast(attempts, Cancel(attempts[|attempts| - 1]).status, s.next);
  }

  lemma StaleKept(s: Store, r: Id, attempt: Id)
    requires Inv(s) && MarkStaleStep(s, r, attempt).Some?
    ensures Inv(MarkStaleStep(s, r, attempt).value)
  {
    var attempts := s.runs[r].attempts;
    assert RunKept(s.runs[r], r, s.outcomes, s.next);
    FindRunning(attempts, attempt);
    EndLast(attempts, Stale, s.next);
  }

  lemma StartRunKept(s: Store, key: string, inputs: Inputs, caseRevision: nat)
    requires Inv(s) && StartRunStep(s, key, inputs, caseRevision).Some?
    ensures Inv(StartRunStep(s, key, inputs, caseRevision).value)
  {
  }

  lemma RetrievalKept(s: Store, r: Id, revision: nat, attempt: Id, binding: Id)
    requires Inv(s) && RecordRetrievalStep(s, r, revision, attempt, binding).Some?
    ensures Inv(RecordRetrievalStep(s, r, revision, attempt, binding).value)
    ensures RecordRetrievalStep(s, r, revision, attempt, binding).value.runs == s.runs
  {
    forall k | k in s.runs ensures RunKept(s.runs[k], k, s.outcomes, s.next + 1) {
      assert RunKept(s.runs[k], k, s.outcomes, s.next);
    }
  }

  lemma InvKept(s: Store, c: Command)
    requires Inv(s)
    ensures Inv(Next(s, c))
  {
    if Apply(s, c).Some? {
      match c
      case ChangeSetting(_) =>
      case StartRun(key, inputs, revision) => StartRunKept(s, key, inputs, revision);
      case StartAttempt(r, revision) => StartAttemptKept(s, r, revision);
      case RecordRetrieval(r, revision, attempt, binding) => RetrievalKept(s, r, revision, attempt, binding);
      case SubmitResult(r, revision, attempt, outcome, judgment) =>
        SubmitKept(s, r, revision, attempt, outcome, judgment);
      case CancelRun(r, revision) => CancelKept(s, r, revision);
      case MarkStale(r, attempt) => StaleKept(s, r, attempt);
    }
  }

  lemma {:induction false} InvRun(s: Store, commands: seq<Command>)
    requires Inv(s)
    ensures Inv(Run(s, commands))
  {
    if commands != [] {
      InvRun(s, commands[..|commands| - 1]);
      InvKept(Run(s, commands[..|commands| - 1]), commands[|commands| - 1]);
    }
  }

  // ----- consequences

  ghost predicate Open(a: Attempt) {
    !AttemptEnded(a.status)
  }

  // In every reachable store: attempts are numbered and chained, only the last can be open, an ended run
  // has no open attempt and exactly the outcome its status stands for, an active run has no outcome.
  lemma {:induction false} RunsAreWellFormed(commands: seq<Command>, r: Id)
    requires r in Run(EMPTY, commands).runs
    ensures var run := Run(EMPTY, commands).runs[r];
            && AttemptsChained(run.attempts)
            && (forall i :: 0 <= i < |run.attempts| && Open(run.attempts[i]) ==>
                  i == |run.attempts| - 1 && !RunEnded(run.status))
    ensures RunEnded(Run(EMPTY, commands).runs[r].status) <==> r in Run(EMPTY, commands).outcomes
    ensures r in Run(EMPTY, commands).outcomes ==>
              Run(EMPTY, commands).runs[r].status == StatusFor(Run(EMPTY, commands).outcomes[r])
  {
    InvRun(EMPTY, commands);
    var s := Run(EMPTY, commands);
    assert RunKept(s.runs[r], r, s.outcomes, s.next);
  }

  // A new attempt can be started exactly when the last one was marked stale: an attempt that completed,
  // failed or was cancelled ended its run.
  lemma NewAttemptNeedsStale(s: Store, r: Id, revision: nat)
    requires Inv(s) && Active(s, r, revision)
    ensures StartAttemptStep(s, r, revision).Some? <==> LastStatus(s.runs[r].attempts) == Stale
  {
    assert RunKept(s.runs[r], r, s.outcomes, s.next);
  }

  // A result can be submitted exactly for the last attempt, while it runs.
  lemma SubmitNeedsRunning(s: Store, r: Id, revision: nat, attempt: Id, outcome: OutcomeType, judgment: Option<Id>)
    requires Inv(s) && Active(s, r, revision)
    ensures SubmitResultStep(s, r, revision, attempt, outcome, judgment).Some?
            <==> (var last := s.runs[r].attempts[|s.runs[r].attempts| - 1];
                  last.id == attempt && last.status == Running && JudgmentFits(outcome, judgment)
                    && outcome != SupersededByNewRun)
  {
    var attempts := s.runs[r].attempts;
    assert RunKept(s.runs[r], r, s.outcomes, s.next);
    var i := Find(attempts, attempt);
    if i.Some? && attempts[i.value].status == Running {
      FindRunning(attempts, attempt);
    }
    if i.None? {
      assert attempts[|attempts| - 1] in attempts;
    }
  }

  // ----- what a run is about never changes

  lemma InputsStay(s: Store, c: Command, r: Id)
    requires Inv(s) && r in Next(s, c).runs
    ensures r in s.runs ==> Next(s, c).runs[r].inputs == s.runs[r].inputs
    ensures r !in s.runs ==> c.StartRun? && Next(s, c).runs[r].inputs == c.inputs
                             && InputsFit(s.setting, c.inputs, c.caseRevision)
  {
  }

  // Every run was started by one command of the list, on an open case with a question, a current scope and a
  // current plan that belong together, and it is still about these.
  lemma {:induction false} InputsFitted(commands: seq<Command>, r: Id) returns (n: nat)
    requires r in Run(EMPTY, commands).runs
    ensures n < |commands| && commands[n].StartRun? && r !in Run(EMPTY, commands[..n]).runs
    ensures Run(EMPTY, commands).runs[r].inputs == commands[n].inputs
    ensures InputsFit(Run(EMPTY, commands[..n]).setting, commands[n].inputs, commands[n].caseRevision)
  {
    var before, last := commands[..|commands| - 1], commands[|commands| - 1];
    InvRun(EMPTY, before);
    InputsStay(Run(EMPTY, before), last, r);
    if r in Run(EMPTY, before).runs {
      n := InputsFitted(before, r);
      assert before[..n] == commands[..n];
    } else {
      n := |commands| - 1;
    }
  }

  // ----- an ended run never changes

  lemma EndedUnchanged(s: Store, c: Command, r: Id)
    requires Inv(s) && r in s.runs && RunEnded(s.runs[r].status)
    ensures r in Next(s, c).runs && Next(s, c).runs[r] == s.runs[r]
    ensures r in Next(s, c).outcomes && Next(s, c).outcomes[r] == s.outcomes[r]
  {
    assert RunKept(s.runs[r], r, s.outcomes, s.next);
  }

  lemma {:induction false} EndedForever(s: Store, commands: seq<Command>, r: Id)
    requires Inv(s) && r in s.runs && RunEnded(s.runs[r].status)
    ensures r in Run(s, commands).runs && Run(s, commands).runs[r] == s.runs[r]
    ensures r in Run(s, commands).outcomes && r in s.outcomes && Run(s, commands).outcomes[r] == s.outcomes[r]
  {
    assert RunKept(s.runs[r], r, s.outcomes, s.next);
    if commands != [] {
      EndedForever(s, commands[..|commands| - 1], r);
      InvRun(s, commands[..|commands| - 1]);
      EndedUnchanged(Run(s, commands[..|commands| - 1]), commands[|commands| - 1], r);
    }
  }

  // ----- a revision is consumed at most once

  // The commands that bump the revision of a run.
  predicate Consumes(c: Command, r: Id, revision: nat) {
    match c
    case StartAttempt(run, expected) => run == r && expected == revision
    case SubmitResult(run, expected, _, _, _) => run == r && expected == revision
    case CancelRun(run, expected) => run == r && expected == revision
    case _ => false
  }

  lemma ConsumedOnce(s: Store, c: Command, r: Id, revision: nat)
    requires Consumes(c, r, revision) && Apply(s, c).Some?
    ensures r in s.runs && s.runs[r].revision == revision
    ensures r in Next(s, c).runs && Next(s, c).runs[r].revision == revision + 1
  {
  }

  lemma RevisionRises(s: Store, c: Command, r: Id)
    requires Inv(s) && r in s.runs
    ensures r in Next(s, c).runs && s.runs[r].revision <= Next(s, c).runs[r].revision
  {
  }

  lemma {:induction false} RevisionRisesOver(s: Store, commands: seq<Command>, r: Id)
    requires Inv(s) && r in s.runs
    ensures r in Run(s, commands).runs && s.runs[r].revision <= Run(s, commands).runs[r].revision
  {
    if commands != [] {
      RevisionRisesOver(s, commands[..|commands| - 1], r);
      InvRun(s, commands[..|commands| - 1]);
      RevisionRises(Run(s, commands[..|commands| - 1]), commands[|commands| - 1], r);
    }
  }

  // Of all commands that name the same revision of a run, at most one ever commits.
  lemma {:induction false} RevisionConsumedOnce(before: seq<Command>, c: Command, between: seq<Command>, d: Command,
                                                r: Id, revision: nat)
    requires Consumes(c, r, revision) && Consumes(d, r, revision)
    requires Apply(Run(EMPTY, before), c).Some?
    ensures Apply(Run(Next(Run(EMPTY, before), c), between), d).None?
  {
    var s := Run(EMPTY, before);
    InvRun(EMPTY, before);
    InvKept(s, c);
    ConsumedOnce(s, c, r, revision);
    RevisionRisesOver(Next(s, c), between, r);
    var t := Run(Next(s, c), between);
    if Apply(t, d).Some? {
      ConsumedOnce(t, d, r, revision);
    }
  }

  // ----- the handlers, writing their tables row by row

  class ExecutionDesk {
    var store: Store

    constructor ()
      ensures store == EMPTY
    {
      store := EMPTY;
    }

    method StartRun(key: string, inputs: Inputs, caseRevision: nat) returns (ok: bool)
      modifies this
      ensures ok <==> StartRunStep(old(store), key, inputs, caseRevision).Some?
      ensures store == Next(old(store), Command.StartRun(key, inputs, caseRevision))
    {
      if !InputsFit(store.setting, inputs, caseRevision) {
        return false;
      }
      var begun := store;
      var r, attempt := store.next, store.next + 1;
      store := store.(runs := store.runs[r := ResearchRun(inputs, RunRunning, 1, [])]);
      AddAttempt(r, Attempt(attempt, 1, Running, None));
      assert store.runs[r].attempts == [Attempt(attempt, 1, Running, None)];
      assert store.runs == begun.runs[r := store.runs[r]];
      if key in store.starts {
        store := begun;
        return false;
      }
      store := store.(next := attempt + 1, starts := store.starts[key := r]);
      assert store == StartRunStep(begun, key, inputs, caseRevision).value;
      return true;
    }

    method AddAttempt(r: Id, attempt: Attempt)
      requires r in store.runs
      modifies this
      ensures store == old(store).(runs := old(store).runs[
                r := old(store).runs[r].(attempts := old(store).runs[r].attempts + [attempt])])
    {
      store := store.(runs := store.runs[r := store.runs[r].(attempts := store.runs[r].attempts + [attempt])]);
    }

    // Sets the status of a run if its revision is the expected one.
    method CompareAndSwap(r: Id, expectedRevision: nat, status: RunStatus) returns (ok: bool)
      modifies this
      ensures ok <==> r in old(store).runs && old(store).runs[r].revision == expectedRevision
      ensures !ok ==> store == old(store)
      ensures ok ==> store == old(store).(runs := old(store).runs[r :=
                ResearchRun(old(store).runs[r].inputs, status, expectedRevision + 1, old(store).runs[r].attempts)])
    {
      if r !in store.runs || store.runs[r].revision != expectedRevision {
        return false;
      }
      var run := store.runs[r];
      store := store.(runs := store.runs[r := ResearchRun(run.inputs, status, expectedRevision + 1, run.attempts)]);
      return true;
    }

    method StartAttempt(r: Id, expectedRevision: nat) returns (ok: bool)
      modifies this
      ensures ok <==> StartAttemptStep(old(store), r, expectedRevision).Some?
      ensures store == Next(old(store), Command.StartAttempt(r, expectedRevision))
    {
      if !Active(store, r, expectedRevision) {
        return false;
      }
      ghost var begun := store;
      var attempts := store.runs[r].attempts;
      if attempts != [] && !AttemptEnded(attempts[|attempts| - 1].status) {
        return false;
      }
      AddAttempt(r, NextAttempt(attempts, store.next));
      ok := CompareAndSwap(r, expectedRevision, RunRunning);
      store := store.(next := store.next + 1);
      assert store == StartAttemptStep(begun, r, expectedRevision).value;
    }

    method RecordRetrieval(r: Id, expectedRevision: nat, attempt: Id, binding: Id) returns (ok: bool)
      modifies this
      ensures ok <==> RecordRetrievalStep(old(store), r, expectedRevision, attempt, binding).Some?
      ensures store == Next(old(store), Command.RecordRetrieval(r, expectedRevision, attempt, binding))
    {
      if !Active(store, r, expectedRevision) {
        return false;
      }
      var i := Find(store.runs[r].attempts, attempt);
      if i.None? || store.runs[r].attempts[i.value].status != Running {
        return false;
      }
      if !BindingFits(store, r, binding) {
        return false;
      }
      store := store.(next := store.next + 1, retrievals := store.retrievals + [Retrieval(r, attempt, binding)]);
      return true;
    }

    method FinishAttempt(r: Id, i: nat, status: AttemptStatus)
      requires r in store.runs && i < |store.runs[r].attempts|
      modifies this
      ensures store == old(store).(runs := old(store).runs[
                r := old(store).runs[r].(attempts := Ended(old(store).runs[r].attempts, i, status))])
    {
      var attempts := Ended(store.runs[r].attempts, i, status);
      store := store.(runs := store.runs[r := store.runs[r].(attempts := attempts)]);
    }

    // The outcome row, then the run; the caller rolls back when it fails.
    method StoreOutcome(r: Id, expectedRevision: nat, outcome: OutcomeType) returns (ok: bool)
      requires r in store.runs && store.runs[r].revision == expectedRevision
      modifies this
      ensures ok <==> CommitOutcome(old(store), r, expectedRevision, old(store).runs[r].attempts, outcome).Some?
      ensures ok ==> Some(store) == CommitOutcome(old(store), r, expectedRevision, old(store).runs[r].attempts, outcome)
    {
      if outcome == SupersededByNewRun || r in store.outcomes {
        return false;
      }
      store := store.(next := store.next + 1, outcomes := store.outcomes[r := outcome]);
      ok := CompareAndSwap(r, expectedRevision, StatusFor(outcome));
    }

    method SubmitResult(r: Id, expectedRevision: nat, attempt: Id, outcome: OutcomeType, judgment: Option<Id>)
      returns (ok: bool)
      modifies this
      ensures ok <==> SubmitResultStep(old(store), r, expectedRevision, attempt, outcome, judgment).Some?
      ensures store == Next(old(store), Command.SubmitResult(r, expectedRevision, attempt, outcome, judgment))
    {
      if !Active(store, r, expectedRevision) {
        return false;
      }
      var begun := store;
      var i := Find(store.runs[r].attempts, attempt);
      if i.None? || store.runs[r].attempts[i.value].status != Running {
        return false;
      }
      FinishAttempt(r, i.value, EndedBy(outcome));
      if JudgmentFits(outcome, judgment) {
        ok := StoreOutcome(r, expectedRevision, outcome);
      } else {
        ok := false;
      }
      if !ok {
        store := begun;
      }
    }

    method CancelRun(r: Id, expectedRevision: nat) returns (ok: bool)
      modifies this
      ensures ok <==> CancelRunStep(old(store), r, expectedRevision).Some?
      ensures store == Next(old(store), Command.CancelRun(r, expectedRevision))
    {
      if !Active(store, r, expectedRevision) {
        return false;
      }
      var begun := store;
      CancelAttempts(r);
      ok := StoreOutcome(r, expectedRevision, CancelledByUser);
      if !ok {
        store := begun;
      }
    }

    method CancelAttempts(r: Id)
      requires r in store.runs
      modifies this
      ensures store == old(store).(runs := old(store).runs[
                r := old(store).runs[r].(attempts := CancelAll(old(store).runs[r].attempts))])
    {
      ghost var begun := store;
      var count := |store.runs[r].attempts|;
      for k := 0 to count
        invariant r in store.runs
                  && store == begun.(runs := begun.runs[r := begun.runs[r].(attempts := store.runs[r].attempts)])
        invariant |store.runs[r].attempts| == count == |begun.runs[r].attempts|
        invariant forall n :: 0 <= n < k ==> store.runs[r].attempts[n] == Cancel(begun.runs[r].attempts[n])
        invariant forall n :: k <= n < count ==> store.runs[r].attempts[n] == begun.runs[r].attempts[n]
      {
        if !AttemptEnded(store.runs[r].attempts[k].status) {
          FinishAttempt(r, k, Cancelled);
        }
      }
      assert store.runs[r].attempts == CancelAll(begun.runs[r].attempts);
    }
  }
}
