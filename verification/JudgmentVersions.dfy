/** The versions of a judgment card: one chain for each run, with only its last version current. */
module JudgmentVersions {
  import opened Options
  import opened Decisions
  import opened DecisionSafety

  type Rows = map<Id, Judgment>

  ghost predicate VersionKept(row: Judgment, j: Id, rows: Rows, current: map<Id, Id>) {
    && row.run in current && current[row.run] in rows
    && row.version <= rows[current[row.run]].version
    && (row.superseded <==> current[row.run] != j)
    && (row.previous.None? <==> row.version == 1)
    && (row.previous.Some? ==>
          && row.previous.value in rows && rows[row.previous.value].run == row.run
          && rows[row.previous.value].version + 1 == row.version)
  }

  ghost predicate OneOfEachVersion(rows: Rows) {
    forall j <- rows, k <- rows :: rows[j].run == rows[k].run && rows[j].version == rows[k].version ==> j == k
  }

  ghost predicate RowsKept(rows: Rows, current: map<Id, Id>) {
    forall j <- rows :: VersionKept(rows[j], j, rows, current)
  }

  ghost predicate CurrentKept(rows: Rows, current: map<Id, Id>) {
    forall run <- current :: current[run] in rows && rows[current[run]].run == run
  }

  // For each run with judgments: versions are unique and linked down to version 1, and exactly the
  // highest one is not superseded.
  ghost predicate Chained(rows: Rows, current: map<Id, Id>) {
    RowsKept(rows, current) && CurrentKept(rows, current) && OneOfEachVersion(rows)
  }

  // The columns the chain is about.
  ghost predicate SameVersion(a: Judgment, b: Judgment) {
    a.run == b.run && a.version == b.version && a.superseded == b.superseded && a.previous == b.previous
  }

  ghost predicate SameVersions(before: Rows, after: Rows) {
    after.Keys == before.Keys && forall j <- before :: SameVersion(before[j], after[j])
  }

  lemma FirstVersionChained(rows: Rows, current: map<Id, Id>, run: Id, n: Id, row: Judgment)
    requires Chained(rows, current) && run !in current && n !in rows
    requires row.run == run && !row.superseded && row.version == 1 && row.previous == None
    ensures Chained(rows[n := row], current[run := n])
  {
    var after, now := rows[n := row], current[run := n];
    forall j | j in after ensures VersionKept(after[j], j, after, now) {
      if j != n {
        assert VersionKept(rows[j], j, rows, current);
      }
    }
    forall j | j in rows ensures rows[j].run != run {
      assert VersionKept(rows[j], j, rows, current);
    }
  }

  ghost predicate SameLink(a: Judgment, b: Judgment) {
    a.run == b.run && a.version == b.version && a.previous == b.previous
  }

  // `after` is `rows` with a new version `n` of the run whose last version was `previous`.
  ghost predicate Extended(rows: Rows, after: Rows, run: Id, previous: Id, n: Id) {
    && previous in rows && n !in rows && after.Keys == rows.Keys + {n}
    && after[n].run == run && !after[n].superseded && after[n].previous == Some(previous)
    && after[n].version == rows[previous].version + 1
    && forall j <- rows :: SameLink(rows[j], after[j]) && after[j].superseded == (rows[j].superseded || j == previous)
  }

  lemma RunVersionsBelow(rows: Rows, current: map<Id, Id>, run: Id, j: Id)
    requires RowsKept(rows, current) && CurrentKept(rows, current) && run in current && j in rows && rows[j].run == run
    ensures rows[j].version <= rows[current[run]].version && (rows[j].superseded <==> j != current[run])
  {
    assert VersionKept(rows[j], j, rows, current);
  }

  lemma ExtendedUnique(rows: Rows, current: map<Id, Id>, run: Id, n: Id, after: Rows, j: Id, k: Id)
    requires Chained(rows, current) && run in current && Extended(rows, after, run, current[run], n)
    requires j in rows && k in after && after[j].run == after[k].run && after[j].version == after[k].version
    ensures j == k
  {
    if k == n {
      RunVersionsBelow(rows, current, run, j);
    } else {
      assert rows[j].run == rows[k].run && rows[j].version == rows[k].version;
    }
  }

  lemma LaterCurrentKept(rows: Rows, current: map<Id, Id>, run: Id, n: Id, after: Rows)
    requires CurrentKept(rows, current) && run in current && Extended(rows, after, run, current[run], n)
    ensures CurrentKept(after, current[run := n])
  {
  }

  lemma LaterVersionChained(rows: Rows, current: map<Id, Id>, run: Id, n: Id, after: Rows)
    requires Chained(rows, current) && run in current && Extended(rows, after, run, current[run], n)
    ensures Chained(after, current[run := n])
  {
    LaterCurrentKept(rows, current, run, n, after);
    LaterVersionUnique(rows, current, run, n, after);
  }

  lemma LaterVersionUnique(rows: Rows, current: map<Id, Id>, run: Id, n: Id, after: Rows)
    requires Chained(rows, current) && run in current && Extended(rows, after, run, current[run], n)
    ensures OneOfEachVersion(after)
  {
    forall j, k | j in after && k in after && after[j].run == after[k].run && after[j].version == after[k].version
      ensures j == k
    {
      if j != n {
        ExtendedUnique(rows, current, run, n, after, j, k);
      } else if k != n {
        ExtendedUnique(rows, current, run, n, after, k, j);
      }
    }
  }

  ghost predicate StoreChained(s: Store) {
    Chained(s.judgments, s.currentJudgment) && Below(s.judgments, s.next)
  }

  lemma AddChained(s: Store, run: Id, row: Judgment, next: Id)
    requires StoreChained(s) && (run in s.currentJudgment ==> s.currentJudgment[run] in s.judgments)
    requires row.run == run && !row.superseded && row.version == 1 && row.previous == None
    ensures Chained(AddJudgment(s, run, row, next).judgments, AddJudgment(s, run, row, next).currentJudgment)
  {
    assert s.next !in s.judgments;
    if run in s.currentJudgment {
      LaterVersionChained(s.judgments, s.currentJudgment, run, s.next, AddJudgment(s, run, row, next).judgments);
    } else {
      FirstVersionChained(s.judgments, s.currentJudgment, run, s.next, row);
    }
  }

  lemma DraftChained(s: Store, run: Id, revision: nat, claims: seq<ClaimCandidate>)
    requires StoreChained(s) && DraftStep(s, run, revision, claims).Some?
    ensures StoreChained(DraftStep(s, run, revision, claims).value)
  {
    var row, next := DraftAdds(s, run, revision, claims);
    AddChained(s, run, row, next);
  }

  lemma StoredKeepsVersions(
    s: Store, j: Id, revision: nat, gate: Gate, ids: seq<Id>, candidates: seq<Candidate>, fitness: Id)
    requires j in s.judgments && s.next <= fitness
    ensures SameVersions(s.judgments, StoredAudit(s, j, revision, gate, ids, candidates, fitness).judgments)
    ensures StoredAudit(s, j, revision, gate, ids, candidates, fitness).currentJudgment == s.currentJudgment
    ensures s.next <= StoredAudit(s, j, revision, gate, ids, candidates, fitness).next
  {
  }

  lemma AuditChained(s: Store, j: Id, revision: nat, semantic: seq<Candidate>)
    requires StoreChained(s) && AuditStep(s, j, revision, semantic).Some?
    ensures StoreChained(AuditStep(s, j, revision, semantic).value)
  {
    var gate, ids, candidates, fitness := AuditStores(s, j, revision, semantic);
    StoredKeepsVersions(s, j, revision, gate, ids, candidates, fitness);
  }

  lemma ChainedNext(s: Store, c: Command)
    requires StoreChained(s)
    ensures StoreChained(Next(s, c))
  {
    if Apply(s, c).Some? {
      match c
      case CreateDraft(run, revision, claims) => DraftChained(s, run, revision, claims);
      case RunAudit(j, revision, semantic) => AuditChained(s, j, revision, semantic);
      case _ => SameRowsChained(s, Next(s, c));
    }
  }

  lemma SameRowsChained(s: Store, t: Store)
    requires StoreChained(s) && t.judgments == s.judgments && t.currentJudgment == s.currentJudgment && s.next <= t.next
    ensures StoreChained(t)
  {
  }

  lemma {:induction false} VersionsOfRun(commands: seq<Command>)
    ensures StoreChained(Run(EMPTY, commands))
  {
    if commands != [] {
      VersionsOfRun(commands[..|commands| - 1]);
      ChainedNext(Run(EMPTY, commands[..|commands| - 1]), commands[|commands| - 1]);
    }
  }
}
