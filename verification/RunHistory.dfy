/** When each command on research runs commits and what it then leaves, and how every ended run came to its end. */
module RunHistory {
  import opened Options
  import opened ResearchRuns

  // The status in which an outcome leaves its run, and the one in which a submitted result leaves its attempt.
  predicate Closes(outcome: OutcomeType, run: RunStatus, attempt: AttemptStatus) {
    && (outcome in {CompletedWithJudgment, InsufficientEvidence, AuditBlocked, DeferredBeforeJudgment} ==>
          run == RunCompleted && attempt == Completed)
    && (outcome == ExecutionFailed ==> run == RunFailed && attempt == Failed)
    && (outcome == CancelledByUser ==> run == RunCancelled && attempt == Completed)
    && outcome != SupersededByNewRun
  }

  function Last(attempts: seq<Attempt>): Attempt
    requires attempts != []
  {
    attempts[|attempts| - 1]
  }

  predicate Maps<K, V(==)>(m: map<K, V>, k: K, v: V) {
    k in m && m[k] == v
  }

  // The run is active at this revision.
  predicate ActiveAt(s: Store, r: Id, revision: nat) {
    r in s.runs && s.runs[r].status == RunRunning && s.runs[r].revision == revision
  }

  // Nothing but this run, its outcome and the counter differs.
  ghost predicate OnlyRun(s: Store, t: Store, r: Id) {
    && t.setting == s.setting && t.starts == s.starts && t.retrievals == s.retrievals
    && t.runs.Keys == s.runs.Keys && r in s.runs && t.runs[r].inputs == s.runs[r].inputs
    && (forall k <- s.runs :: k != r ==> t.runs[k] == s.runs[k])
    && t.outcomes - {r} == s.outcomes - {r}
  }

  // The last attempt has this status now, the others and its other fields are as before.
  ghost predicate LastBecame(before: seq<Attempt>, after: seq<Attempt>, status: AttemptStatus) {
    && before != [] && |after| == |before|
    && after[..|after| - 1] == before[..|before| - 1]
    && Last(after) == Attempt(Last(before).id, Last(before).number, status, Last(before).previous)
  }

  lemma ActiveIsRunning(s: Store, r: Id, revision: nat)
    requires Inv(s)
    ensures Active(s, r, revision) <==> ActiveAt(s, r, revision)
    ensures r in s.runs ==> s.runs[r].attempts != []
    ensures r in s.runs && !RunEnded(s.runs[r].status) ==>
              r !in s.outcomes && Last(s.runs[r].attempts).status in {Running, Stale}
    ensures r in s.runs && RunEnded(s.runs[r].status) ==> AttemptEnded(Last(s.runs[r].attempts).status)
  {
    if r in s.runs {
      assert RunKept(s.runs[r], r, s.outcomes, s.next);
    }
  }

  // An attempt of the run that is running is its last.
  lemma {:induction false} RunningIsLast(s: Store, r: Id, attempt: Id)
    requires Inv(s) && r in s.runs
    ensures var attempts := s.runs[r].attempts; var i := Find(attempts, attempt);
            && attempts != []
            && (i.Some? && attempts[i.value].status == Running <==>
                  Last(attempts).id == attempt && Last(attempts).status == Running)
            && (i.Some? && attempts[i.value].status != Stale ==> i.value == |attempts| - 1)
  {
    var attempts := s.runs[r].attempts;
    assert RunKept(s.runs[r], r, s.outcomes, s.next);
    var i := Find(attempts, attempt);
    if i.Some? && attempts[i.value].status != Stale {
      FindRunning(attempts, attempt);
    }
    if i.None? {
      assert Last(attempts) in attempts;
    }
  }

  /** A run starts exactly on an open case at the named revision, with a question, a current scope and a current plan
      of that case, the plan for that scope, under a key not used before: as a new run with one running attempt. */
  lemma StartsExactly(s: Store, key: string, inputs: Inputs, caseRevision: nat)
    requires Inv(s)
    ensures Apply(s, StartRun(key, inputs, caseRevision)).Some?
            <==> && key !in s.starts
                 && Maps(s.setting.cases, inputs.researchCase, Case(true, caseRevision))
                 && Maps(s.setting.questions, inputs.question, inputs.researchCase)
                 && Maps(s.setting.scopes, inputs.scope, Scope(inputs.researchCase, true))
                 && Maps(s.setting.plans, inputs.plan, Plan(inputs.researchCase, inputs.scope, true))
    ensures Apply(s, StartRun(key, inputs, caseRevision)).Some? ==>
              var t := Next(s, StartRun(key, inputs, caseRevision));
              && key in t.starts && t.starts - {key} == s.starts && t.starts[key] !in s.runs
              && t.runs.Keys == s.runs.Keys + {t.starts[key]}
              && (forall k <- s.runs :: t.runs[k] == s.runs[k])
              && t.outcomes == s.outcomes && t.setting == s.setting && t.retrievals == s.retrievals
    ensures Apply(s, StartRun(key, inputs, caseRevision)).Some? ==>
              var t := Next(s, StartRun(key, inputs, caseRevision));
              exists id :: t.runs[t.starts[key]] == ResearchRun(inputs, RunRunning, 1, [Attempt(id, 1, Running, None)])
  {
  }

  /** An attempt starts exactly on an active run at the named revision whose last attempt was marked stale: as the next
      attempt, running, linked to that one, in a run one revision on. */
  lemma AttemptsExactly(s: Store, r: Id, revision: nat)
    requires Inv(s)
    ensures Apply(s, StartAttempt(r, revision)).Some?
            <==> ActiveAt(s, r, revision) && Last(s.runs[r].attempts).status == Stale
    ensures Apply(s, StartAttempt(r, revision)).Some? ==>
              var t := Next(s, StartAttempt(r, revision));
              && OnlyRun(s, t, r) && ActiveAt(t, r, revision + 1) && t.outcomes == s.outcomes
              && |t.runs[r].attempts| == |s.runs[r].attempts| + 1
              && t.runs[r].attempts[..|s.runs[r].attempts|] == s.runs[r].attempts
              && Last(t.runs[r].attempts).status == Running
              && Last(t.runs[r].attempts).number == |t.runs[r].attempts|
              && Last(t.runs[r].attempts).previous == Some(Last(s.runs[r].attempts).id)
  {
    ActiveIsRunning(s, r, revision);
    if ActiveAt(s, r, revision) {
      assert RunKept(s.runs[r], r, s.outcomes, s.next);
      assert Linked(s.runs[r].attempts, |s.runs[r].attempts| - 1);
    }
  }

  /** A retrieval is recorded exactly for the last attempt of an active run at the named revision, while it runs,
      through a binding of the scope of the run; nothing else changes. */
  lemma RetrievesExactly(s: Store, r: Id, revision: nat, attempt: Id, binding: Id)
    requires Inv(s)
    ensures Apply(s, RecordRetrieval(r, revision, attempt, binding)).Some?
            <==> && ActiveAt(s, r, revision) && Last(s.runs[r].attempts).id == attempt
                 && Last(s.runs[r].attempts).status == Running
                 && Maps(s.setting.bindings, binding, s.runs[r].inputs.scope)
    ensures Apply(s, RecordRetrieval(r, revision, attempt, binding)).Some? ==>
              var t := Next(s, RecordRetrieval(r, revision, attempt, binding));
              && t.retrievals == s.retrievals + [Retrieval(r, attempt, binding)]
              && t.runs == s.runs && t.outcomes == s.outcomes && t.starts == s.starts && t.setting == s.setting
  {
    ActiveIsRunning(s, r, revision);
    if r in s.runs {
      RunningIsLast(s, r, attempt);
    }
  }

  lemma OutcomeCloses(outcome: OutcomeType)
    requires outcome != SupersededByNewRun
    ensures Closes(outcome, StatusFor(outcome), EndedBy(outcome))
  {
  }

  lemma EndedLast(attempts: seq<Attempt>, status: AttemptStatus)
    requires attempts != []
    ensures LastBecame(attempts, Ended(attempts, |attempts| - 1, status), status)
  {
  }

  /** A result is taken exactly for the last attempt of an active run at the named revision, while it runs, with a
      judgment if and only if its outcome has one, and never as superseded. */
  lemma SubmitsExactly(s: Store, r: Id, revision: nat, attempt: Id, outcome: OutcomeType, judgment: Option<Id>)
    requires Inv(s)
    ensures Apply(s, SubmitResult(r, revision, attempt, outcome, judgment)).Some?
            <==> && ActiveAt(s, r, revision) && Last(s.runs[r].attempts).id == attempt
                 && Last(s.runs[r].attempts).status == Running
                 && (judgment.Some? <==> outcome == CompletedWithJudgment || outcome == AuditBlocked)
                 && outcome != SupersededByNewRun
  {
    ActiveIsRunning(s, r, revision);
    if ActiveAt(s, r, revision) {
      RunningIsLast(s, r, attempt);
    }
  }

  // The run and its last attempt have ended with this outcome, at the next revision.
  ghost predicate EndedWith(s: Store, t: Store, r: Id, outcome: OutcomeType, status: AttemptStatus) {
    && OnlyRun(s, t, r) && t.runs[r].revision == s.runs[r].revision + 1
    && LastBecame(s.runs[r].attempts, t.runs[r].attempts, status)
    && Maps(t.outcomes, r, outcome)
  }

  lemma CommitEnds(s: Store, r: Id, attempts: seq<Attempt>, outcome: OutcomeType, status: AttemptStatus)
    requires r in s.runs && CommitOutcome(s, r, s.runs[r].revision, attempts, outcome).Some?
    requires LastBecame(s.runs[r].attempts, attempts, status)
    ensures var t := CommitOutcome(s, r, s.runs[r].revision, attempts, outcome).value;
            EndedWith(s, t, r, outcome, status) && t.runs[r].status == StatusFor(outcome)
            && t.runs[r].attempts == attempts
  {
  }

  /** A result that is taken ends attempt and run as its outcome says, and its outcome becomes that of the run. */
  lemma SubmitEnds(s: Store, r: Id, revision: nat, attempt: Id, outcome: OutcomeType, judgment: Option<Id>)
    requires Inv(s) && Apply(s, SubmitResult(r, revision, attempt, outcome, judgment)).Some?
    ensures var t := Next(s, SubmitResult(r, revision, attempt, outcome, judgment));
            r in t.runs && t.runs[r].attempts != []
            && var status := Last(t.runs[r].attempts).status;
            EndedWith(s, t, r, outcome, status) && Closes(outcome, t.runs[r].status, status)
  {
    var attempts := s.runs[r].attempts;
    RunningIsLast(s, r, attempt);
    OutcomeCloses(outcome);
    EndedLast(attempts, EndedBy(outcome));
    CommitEnds(s, r, Ended(attempts, |attempts| - 1, EndedBy(outcome)), outcome, EndedBy(outcome));
  }

  /** A run is cancelled exactly while it is active at the named revision: its last attempt too, unless it was stale. */
  lemma CancelsExactly(s: Store, r: Id, revision: nat)
    requires Inv(s)
    ensures Apply(s, CancelRun(r, revision)).Some? <==> ActiveAt(s, r, revision)
    ensures Apply(s, CancelRun(r, revision)).Some? ==>
              var t := Next(s, CancelRun(r, revision));
              && EndedWith(s, t, r, CancelledByUser,
                           if Last(s.runs[r].attempts).status == Stale then Stale else Cancelled)
              && t.runs[r].status == RunCancelled
  {
    ActiveIsRunning(s, r, revision);
    if ActiveAt(s, r, revision) {
      assert RunKept(s.runs[r], r, s.outcomes, s.next);
      CancelLast(s.runs[r].attempts);
      var status := Cancel(Last(s.runs[r].attempts)).status;
      EndedLast(s.runs[r].attempts, status);
      CommitEnds(s, r, CancelAll(s.runs[r].attempts), CancelledByUser, status);
    }
  }

  /** An attempt is marked stale exactly while it runs, which only the last one of an active run does. */
  lemma StalesExactly(s: Store, r: Id, attempt: Id)
    requires Inv(s)
    ensures Apply(s, MarkStale(r, attempt)).Some?
            <==> && r in s.runs && s.runs[r].status == RunRunning && Last(s.runs[r].attempts).id == attempt
                 && Last(s.runs[r].attempts).status == Running
  {
    if r in s.runs {
      ActiveIsRunning(s, r, s.runs[r].revision);
      RunningIsLast(s, r, attempt);
    }
  }

  /** Nothing but the status of that attempt changes. */
  lemma StaleLeaves(s: Store, r: Id, attempt: Id)
    requires Inv(s) && Apply(s, MarkStale(r, attempt)).Some?
    ensures var t := Next(s, MarkStale(r, attempt));
            && OnlyRun(s, t, r) && ActiveAt(t, r, s.runs[r].revision) && t.outcomes == s.outcomes
            && LastBecame(s.runs[r].attempts, t.runs[r].attempts, Stale)
  {
    StalesExactly(s, r, attempt);
    RunningIsLast(s, r, attempt);
    EndedLast(s.runs[r].attempts, Stale);
  }

  // The command that ended a run, and what it left.
  ghost predicate EndedAs(c: Command, r: Id, run: ResearchRun, outcome: OutcomeType) {
    && run.attempts != []
    && match c
       case SubmitResult(k, revision, attempt, o, judgment) =>
         && k == r && o == outcome && run.revision == revision + 1 && Last(run.attempts).id == attempt
         && Closes(outcome, run.status, Last(run.attempts).status)
         && (judgment.Some? <==> outcome == CompletedWithJudgment || outcome == AuditBlocked)
       case CancelRun(k, revision) =>
         && k == r && outcome == CancelledByUser && run.revision == revision + 1 && run.status == RunCancelled
         && Last(run.attempts).status in {Cancelled, Stale}
       case _ => false
  }

  // The run is active and the command commits.
  ghost predicate Ends(s: Store, c: Command, r: Id) {
    r in s.runs && !RunEnded(s.runs[r].status) && Apply(s, c).Some?
  }

  ghost predicate HasEnded(s: Store, r: Id) {
    r in s.runs && RunEnded(s.runs[r].status)
  }

  // The run has the outcome that the command left.
  ghost predicate EndedIn(s: Store, r: Id, c: Command) {
    r in s.runs && r in s.outcomes && EndedAs(c, r, s.runs[r], s.outcomes[r])
  }

  lemma EndsByOne(s: Store, c: Command, r: Id)
    requires Inv(s) && Inv(Next(s, c)) && HasEnded(Next(s, c), r) && !HasEnded(s, r)
    ensures Ends(s, c, r) && EndedIn(Next(s, c), r, c)
  {
    match c
    case ChangeSetting(_) =>
    case StartRun(key, inputs, revision) => StartsExactly(s, key, inputs, revision);
    case StartAttempt(k, revision) => AttemptsExactly(s, k, revision);
    case RecordRetrieval(k, revision, attempt, binding) => RetrievesExactly(s, k, revision, attempt, binding);
    case SubmitResult(k, revision, attempt, outcome, judgment) =>
      SubmitsExactly(s, k, revision, attempt, outcome, judgment);
      if Apply(s, c).Some? {
        SubmitEnds(s, k, revision, attempt, outcome, judgment);
      }
    case CancelRun(k, revision) => CancelsExactly(s, k, revision);
    case MarkStale(k, attempt) =>
      if Apply(s, c).Some? {
        StaleLeaves(s, k, attempt);
      }
  }

  lemma EndedStays(s: Store, c: Command, r: Id, d: Command)
    requires Inv(s) && HasEnded(s, r) && EndedIn(s, r, d)
    ensures EndedIn(Next(s, c), r, d)
  {
    EndedUnchanged(s, c, r);
  }

  // Command `n` of the list ends the run.
  ghost predicate EndsAt(commands: seq<Command>, n: nat, r: Id) {
    n < |commands| && Ends(Run(EMPTY, commands[..n]), commands[n], r)
  }

  lemma EndsEarlier(before: seq<Command>, last: Command, n: nat, r: Id)
    requires EndsAt(before, n, r)
    ensures EndsAt(before + [last], n, r) && (before + [last])[n] == before[n]
  {
    assert (before + [last])[..n] == before[..n];
  }

  lemma {:induction false} EndsLast(before: seq<Command>, last: Command, r: Id)
    requires Ends(Run(EMPTY, before), last, r)
    ensures EndsAt(before + [last], |before|, r) && (before + [last])[|before|] == last
  {
    assert (before + [last])[..|before|] == before;
  }

  lemma {:induction false} RunLast(before: seq<Command>, last: Command)
    ensures Run(EMPTY, before + [last]) == Next(Run(EMPTY, before), last)
  {
    assert (before + [last])[..|before|] == before;
  }

  /** Every ended run was ended by one command of the list, while it was active: by a result for its last attempt, whose
      outcome gives the final status of both, or by being cancelled. That outcome is the one stored for it. */
  lemma {:induction false} HowItEnded(commands: seq<Command>, r: Id) returns (n: nat)
    requires HasEnded(Run(EMPTY, commands), r)
    ensures EndsAt(commands, n, r) && EndedIn(Run(EMPTY, commands), r, commands[n])
  {
    var before, last := commands[..|commands| - 1], commands[|commands| - 1];
    var s := Run(EMPTY, before);
    assert commands == before + [last];
    RunLast(before, last);
    InvRun(EMPTY, before);
    InvKept(s, last);
    if HasEnded(s, r) {
      n := HowItEnded(before, r);
      EndedStays(s, last, r, before[n]);
      EndsEarlier(before, last, n, r);
    } else {
      EndsByOne(s, last, r);
      EndsLast(before, last, r);
      n := |before|;
    }
  }
}
