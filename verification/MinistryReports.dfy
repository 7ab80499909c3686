/** What the daily reports hold, said of the candidates as they were offered. */
module MinistryReports {
  import opened Options
  import opened Ordering
  import opened Places
  import opened Ministries

  // Higher score, or the same and shorter, or that too and the title that precedes.
  predicate Better(a: Candidate, b: Candidate) {
    if a.score != b.score then a.score > b.score
    else if a.minutes != b.minutes then a.minutes < b.minutes
    else StringLeq(a.title, b.title)
  }

  // Candidates for this intent or for none in particular, the best first.
  ghost predicate RankingOf(candidates: seq<Candidate>, intent: string, ranked: seq<Candidate>) {
    && Ordered(Better, ranked)
    && forall c :: multiset(ranked)[c]
                   == if c.intent == None || c.intent == Some(intent) then multiset(candidates)[c] else 0
  }

  lemma {:induction false} EligibleCounts(candidates: seq<Candidate>, intent: string, c: Candidate)
    ensures multiset(EligibleOf(candidates, intent))[c]
            == if c.intent == None || c.intent == Some(intent) then multiset(candidates)[c] else 0
  {
    if candidates != [] {
      var n := |candidates| - 1;
      EligibleCounts(candidates[..n], intent, c);
      assert candidates == candidates[..n] + [candidates[n]];
    }
  }

  lemma RankedIs(candidates: seq<Candidate>, intent: string)
    ensures RankingOf(candidates, intent, Ranked(candidates, intent))
  {
    RankedInOrder(candidates, intent);
    forall c: Candidate
      ensures multiset(Ranked(candidates, intent))[c]
              == if c.intent == None || c.intent == Some(intent) then multiset(candidates)[c] else 0
    {
      EligibleCounts(candidates, intent, c);
    }
    var ranked := Ranked(candidates, intent);
    forall i, j | 0 <= i < j < |ranked| ensures Better(ranked[i], ranked[j]) {
      assert RanksBefore(ranked[i], ranked[j]);
    }
  }

  // ----- the choice, place by place

  // The places before `p` that are chosen, and those of them that are of one ministry.
  function Before(picks: seq<bool>, p: nat): set<nat> {
    Below(p, (k: nat) => k < |picks| && picks[k])
  }

  function BeforeOf(ranked: seq<Candidate>, picks: seq<bool>, p: nat, m: Ministry): set<nat> {
    Below(p, (k: nat) => k < |picks| && k < |ranked| && picks[k] && ranked[k].ministry == m)
  }

  // The minutes of the chosen candidates before `p`.
  function Spent(ranked: seq<Candidate>, picks: seq<bool>, p: nat): nat
    requires p <= |ranked| == |picks|
  {
    if p == 0 then 0 else Spent(ranked, picks, p - 1) + if picks[p - 1] then ranked[p - 1].minutes else 0
  }

  // Fewer than five are chosen before, fewer than three of them of this ministry, and the minutes are enough.
  ghost predicate Room(ranked: seq<Candidate>, picks: seq<bool>, minutes: nat, p: nat)
    requires p < |ranked| == |picks|
  {
    && |Before(picks, p)| < 5 && |BeforeOf(ranked, picks, p, ranked[p].ministry)| < 3
    && Spent(ranked, picks, p) + ranked[p].minutes <= minutes
  }

  lemma BeforeMore(ranked: seq<Candidate>, picks: seq<bool>, p: nat, m: Ministry)
    requires p < |ranked| == |picks|
    ensures |Before(picks, p + 1)| == |Before(picks, p)| + if picks[p] then 1 else 0
    ensures |BeforeOf(ranked, picks, p + 1, m)|
            == |BeforeOf(ranked, picks, p, m)| + if picks[p] && ranked[p].ministry == m then 1 else 0
  {
    BelowMore(p, (k: nat) => k < |picks| && picks[k]);
    BelowMore(p, (k: nat) => k < |picks| && k < |ranked| && picks[k] && ranked[k].ministry == m);
  }

  lemma ChosenMore(ranked: seq<Candidate>, picks: seq<bool>, p: nat)
    requires p < |ranked| == |picks|
    ensures Chosen(ranked[..p + 1], picks[..p + 1])
            == if picks[p] then Chosen(ranked[..p], picks[..p]) + [ranked[p]] else Chosen(ranked[..p], picks[..p])
  {
    assert ranked[..p + 1][..p] == ranked[..p] && picks[..p + 1][..p] == picks[..p];
  }

  // The list of chosen candidates shows how many are chosen and what they cost.
  ghost predicate Counts(chosen: seq<Candidate>, all: nat, of: nat, m: Ministry, spent: nat) {
    |chosen| == all && CountOf(chosen, m) == of && Minutes(chosen) == spent
  }

  lemma CountsMore(chosen: seq<Candidate>, all: nat, of: nat, m: Ministry, spent: nat, c: Candidate)
    requires Counts(chosen, all, of, m, spent)
    ensures Counts(chosen + [c], all + 1, of + if c.ministry == m then 1 else 0, m, spent + c.minutes)
  {
    TakeOne(chosen, c);
  }

  lemma CountsPick(chosen: seq<Candidate>, all: nat, of: nat, m: Ministry, spent: nat, c: Candidate, pick: bool)
    requires Counts(chosen, all, of, m, spent)
    ensures Counts(if pick then chosen + [c] else chosen, all + if pick then 1 else 0,
                   of + if pick && c.ministry == m then 1 else 0, m, spent + if pick then c.minutes else 0)
  {
    if pick {
      CountsMore(chosen, all, of, m, spent, c);
    }
  }

  lemma {:induction false} ChosenCounts(ranked: seq<Candidate>, picks: seq<bool>, p: nat, m: Ministry)
    requires p <= |ranked| == |picks|
    ensures Counts(Chosen(ranked[..p], picks[..p]), |Before(picks, p)|, |BeforeOf(ranked, picks, p, m)|, m,
                   Spent(ranked, picks, p))
  {
    if p == 0 {
      NoneBefore(ranked, picks, m);
    } else {
      var n := p - 1;
      ChosenCounts(ranked, picks, n, m);
      ChosenMore(ranked, picks, n);
      BeforeMore(ranked, picks, n, m);
      CountsPick(Chosen(ranked[..n], picks[..n]), |Before(picks, n)|, |BeforeOf(ranked, picks, n, m)|, m,
                 Spent(ranked, picks, n), ranked[n], picks[n]);
    }
  }

  lemma NoneBefore(ranked: seq<Candidate>, picks: seq<bool>, m: Ministry)
    ensures |Before(picks, 0)| == |BeforeOf(ranked, picks, 0, m)| == 0
  {
    BelowMore(0, (k: nat) => k < |picks| && picks[k]);
    BelowMore(0, (k: nat) => k < |picks| && k < |ranked| && picks[k] && ranked[k].ministry == m);
  }

  lemma {:induction false} PicksHaveRoom(ranked: seq<Candidate>, budget: nat, p: nat)
    requires p < |ranked|
    ensures Greedy(ranked, budget)[p] <==> Room(ranked, Greedy(ranked, budget), budget, p)
  {
    var picks := Greedy(ranked, budget);
    GreedyAt(ranked, budget, p);
    GreedyPrefix(ranked, budget, p);
    ChosenCounts(ranked, picks, p, ranked[p].ministry);
  }

  // ----- the reports

  // The report holds the candidates at the places `at`: the chosen ones of its ministry, in order.
  ghost predicate ReportAt(ranked: seq<Candidate>, picks: seq<bool>, m: Ministry, r: Report, at: seq<nat>) {
    && |picks| == |ranked| && r.ministry == m && |at| == |r.items| && (r.nothing <==> at == [])
    && Rising(at)
    && (forall p :: 0 <= p < |ranked| ==> (p in at <==> picks[p] && ranked[p].ministry == m))
    && (forall i :: 0 <= i < |at| ==>
          at[i] < |ranked| && r.items[i] == (var c := ranked[at[i]]; Item(m, c.title, c.content, c.score, c.minutes)))
  }

  ghost predicate ReportOf(ranked: seq<Candidate>, picks: seq<bool>, m: Ministry, r: Report) {
    exists at :: ReportAt(ranked, picks, m, r, at)
  }

  lemma {:induction false} ItemsAt(ranked: seq<Candidate>, picks: seq<bool>, m: Ministry) returns (at: seq<nat>)
    requires |picks| == |ranked|
    ensures var items := ItemsOf(Chosen(ranked, picks), m);
            ReportAt(ranked, picks, m, Report(m, items, items == []), at)
  {
    if ranked == [] {
      at := [];
    } else {
      var n := |ranked| - 1;
      at := ItemsAt(ranked[..n], picks[..n], m);
      var items := ItemsOf(Chosen(ranked[..n], picks[..n]), m);
      assert ranked == ranked[..n] + [ranked[n]] && picks == picks[..n] + [picks[n]];
      ReportMore(ranked[..n], picks[..n], m, items, at, ranked[n], picks[n]);
      if picks[n] {
        var chosen := Chosen(ranked[..n], picks[..n]);
        assert (chosen + [ranked[n]])[..|chosen|] == chosen;
        if ranked[n].ministry == m {
          at := at + [n];
        }
      }
    }
  }

  lemma ReportMore(ranked: seq<Candidate>, picks: seq<bool>, m: Ministry, items: seq<Item>, at: seq<nat>,
                   c: Candidate, pick: bool)
    requires ReportAt(ranked, picks, m, Report(m, items, items == []), at)
    ensures pick && c.ministry == m ==>
              ReportAt(ranked + [c], picks + [pick], m, Report(m, items + [ItemOf(c)], false), at + [|ranked|])
    ensures !pick || c.ministry != m ==>
              ReportAt(ranked + [c], picks + [pick], m, Report(m, items, items == []), at)
  {
    var after := at + [|ranked|];
    assert after[|at|] == |ranked|;
    forall p | 0 <= p < |ranked| ensures (ranked + [c])[p] == ranked[p] && (picks + [pick])[p] == picks[p] {
    }
    forall p | 0 <= p < |ranked| ensures p in after <==> p in at {
    }
  }

  /** Of the candidates for the intent or for none in particular, in the order of score, length and title, each is
      chosen exactly when fewer than five are chosen before it, fewer than three of its ministry, and the minutes left,
      those for research if there are any, are enough; and the report of each ministry holds its chosen ones in that
      order. */
  lemma ReportsMean(candidates: seq<Candidate>, intent: string, budget: AttentionBudget)
    returns (ranked: seq<Candidate>, picks: seq<bool>, minutes: nat)
    ensures minutes == match budget.research
                       case Some(n) => if n > 0 then n else budget.total
                       case None => budget.total
    ensures RankingOf(candidates, intent, ranked) && |picks| == |ranked|
    ensures forall p :: 0 <= p < |ranked| ==> (picks[p] <==> Room(ranked, picks, minutes, p))
    ensures var reports := Reports(Selected(Ranked(candidates, intent), BudgetMinutes(budget)));
            && |reports| == 3 && ReportOf(ranked, picks, Technology, reports[0])
            && ReportOf(ranked, picks, Cognition, reports[1]) && ReportOf(ranked, picks, Business, reports[2])
  {
    ranked, minutes := Ranked(candidates, intent), BudgetMinutes(budget);
    picks := Greedy(ranked, minutes);
    RankedIs(candidates, intent);
    forall p | 0 <= p < |ranked| ensures picks[p] <==> Room(ranked, picks, minutes, p) {
      PicksHaveRoom(ranked, minutes, p);
    }
    var technology := ItemsAt(ranked, picks, Technology);
    var cognition := ItemsAt(ranked, picks, Cognition);
    var business := ItemsAt(ranked, picks, Business);
  }
}
