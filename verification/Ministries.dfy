/** The daily recommendations: a greedy choice within limits, reported ministry by ministry. */
module Ministries {
  import opened Options
  import opened Ordering

  datatype Ministry = Technology | Cognition | Business

  const MINISTRIES: seq<Ministry> := [Technology, Cognition, Business]
  const MAX_ITEMS_PER_MINISTRY := 3
  const MAX_ITEMS_TOTAL := 5

  // `content` stands for the texts and citations that are copied as they are.
  datatype Candidate = Candidate(
    ministry: Ministry, title: string, content: string, score: real, minutes: nat, intent: Option<string>)

  datatype Item = Item(ministry: Ministry, title: string, content: string, score: real, minutes: nat)

  datatype Report = Report(ministry: Ministry, items: seq<Item>, nothing: bool)

  datatype AttentionBudget = AttentionBudget(total: nat, research: Option<nat>)

  // Minutes set aside for research, unless there are none.
  function BudgetMinutes(budget: AttentionBudget): nat {
    if budget.research.Some? && budget.research.value != 0 then budget.research.value else budget.total
  }

  predicate Eligible(c: Candidate, intent: string) {
    c.intent.None? || c.intent.value == intent
  }

  function EligibleOf(candidates: seq<Candidate>, intent: string): seq<Candidate> {
    if candidates == [] then []
    else
      var rest := EligibleOf(candidates[..|candidates| - 1], intent);
      if Eligible(candidates[|candidates| - 1], intent) then rest + [candidates[|candidates| - 1]] else rest
  }

  // Higher scores first, then shorter readings, then titles.
  predicate RanksBefore(a: Candidate, b: Candidate) {
    || a.score > b.score
    || (a.score == b.score && (a.minutes < b.minutes || (a.minutes == b.minutes && StringLeq(a.title, b.title))))
  }

  lemma RanksBeforeIsOrder()
    ensures Total(RanksBefore) && Transitive(RanksBefore)
  {
    forall a: Candidate, b: Candidate ensures RanksBefore(a, b) || RanksBefore(b, a) {
      StringTotal(a.title, b.title);
    }
    forall a: Candidate, b: Candidate, c: Candidate | RanksBefore(a, b) && RanksBefore(b, c) ensures RanksBefore(a, c) {
      if StringLeq(a.title, b.title) && StringLeq(b.title, c.title) {
        StringTransitive(a.title, b.title, c.title);
      }
    }
  }

  function Ranked(candidates: seq<Candidate>, intent: string): seq<Candidate> {
    SortBy(RanksBefore, EligibleOf(candidates, intent))
  }

  // The ranking holds the eligible candidates, best first.
  lemma {:induction false} RankedInOrder(candidates: seq<Candidate>, intent: string)
    ensures Ordered(RanksBefore, Ranked(candidates, intent))
    ensures multiset(Ranked(candidates, intent)) == multiset(EligibleOf(candidates, intent))
  {
    RanksBeforeIsOrder();
    SortOrdered(RanksBefore, EligibleOf(candidates, intent));
    SortElements(RanksBefore, EligibleOf(candidates, intent));
  }

  // ----- the limits

  function Minutes(chosen: seq<Candidate>): nat {
    if chosen == [] then 0 else Minutes(chosen[..|chosen| - 1]) + chosen[|chosen| - 1].minutes
  }

  function CountOf(chosen: seq<Candidate>, m: Ministry): nat {
    if chosen == [] then 0
    else CountOf(chosen[..|chosen| - 1], m) + if chosen[|chosen| - 1].ministry == m then 1 else 0
  }

  ghost predicate Feasible(chosen: seq<Candidate>, budget: nat) {
    && |chosen| <= MAX_ITEMS_TOTAL
    && (forall m: Ministry :: CountOf(chosen, m) <= MAX_ITEMS_PER_MINISTRY)
    && Minutes(chosen) <= budget
  }

  // ----- choices as one flag for each ranked candidate

  function Chosen(ranked: seq<Candidate>, picks: seq<bool>): seq<Candidate>
    requires |picks| == |ranked|
  {
    if ranked == [] then []
    else
      var n := |ranked| - 1;
      var rest := Chosen(ranked[..n], picks[..n]);
      if picks[n] then rest + [ranked[n]] else rest
  }

  predicate Fits(chosen: seq<Candidate>, c: Candidate, budget: nat) {
    && |chosen| < MAX_ITEMS_TOTAL && Minutes(chosen) + c.minutes <= budget
    && CountOf(chosen, c.ministry) < MAX_ITEMS_PER_MINISTRY
  }

  // Takes each candidate that still fits what was taken before it.
  function Greedy(ranked: seq<Candidate>, budget: nat): (picks: seq<bool>)
    ensures |picks| == |ranked|
  {
    if ranked == [] then []
    else
      var n := |ranked| - 1;
      var before := Greedy(ranked[..n], budget);
      before + [Fits(Chosen(ranked[..n], before), ranked[n], budget)]
  }

  function Selected(ranked: seq<Candidate>, budget: nat): seq<Candidate> {
    Chosen(ranked, Greedy(ranked, budget))
  }

  lemma {:induction false} TakeOne(chosen: seq<Candidate>, c: Candidate)
    ensures Minutes(chosen + [c]) == Minutes(chosen) + c.minutes
    ensures forall m: Ministry :: CountOf(chosen + [c], m) == CountOf(chosen, m) + if c.ministry == m then 1 else 0
  {
    assert (chosen + [c])[..|chosen|] == chosen;
  }

  lemma {:induction false} GreedyIsFeasible(ranked: seq<Candidate>, budget: nat)
    ensures Feasible(Selected(ranked, budget), budget)
  {
    if ranked != [] {
      var n := |ranked| - 1;
      GreedyIsFeasible(ranked[..n], budget);
      assert ranked == ranked[..n] + [ranked[n]];
      TakeOne(Selected(ranked[..n], budget), ranked[n]);
    }
  }

  // Leaving out the last candidates keeps a choice within the limits.
  lemma {:induction false} PrefixFeasible(ranked: seq<Candidate>, picks: seq<bool>, budget: nat, i: nat)
    requires |picks| == |ranked| && i <= |ranked| && Feasible(Chosen(ranked, picks), budget)
    ensures Feasible(Chosen(ranked[..i], picks[..i]), budget)
  {
    if i == |ranked| {
      assert ranked[..i] == ranked && picks[..i] == picks;
    } else {
      var n := |ranked| - 1;
      TakeOne(Chosen(ranked[..n], picks[..n]), ranked[n]);
      PrefixFeasible(ranked[..n], picks[..n], budget, i);
      assert ranked[..n][..i] == ranked[..i] && picks[..n][..i] == picks[..i];
    }
  }

  lemma {:induction false} GreedyPrefix(ranked: seq<Candidate>, budget: nat, i: nat)
    requires i <= |ranked|
    ensures Greedy(ranked, budget)[..i] == Greedy(ranked[..i], budget)
  {
    if i == |ranked| {
      assert ranked[..i] == ranked;
    } else {
      var n := |ranked| - 1;
      GreedyPrefix(ranked[..n], budget, i);
      assert ranked[..n][..i] == ranked[..i];
      assert ranked == ranked[..n] + [ranked[n]];
      assert Greedy(ranked, budget)[..n][..i] == Greedy(ranked, budget)[..i];
    }
  }

  lemma PrefixOfChoice(ranked: seq<Candidate>, picks: seq<bool>, i: nat)
    requires |picks| == |ranked| && i < |ranked| && picks[i]
    ensures Chosen(ranked[..i + 1], picks[..i + 1]) == Chosen(ranked[..i], picks[..i]) + [ranked[i]]
  {
    assert ranked[..i + 1][..i] == ranked[..i] && picks[..i + 1][..i] == picks[..i];
  }

  lemma FeasibleFits(chosen: seq<Candidate>, c: Candidate, budget: nat)
    requires Feasible(chosen + [c], budget)
    ensures Fits(chosen, c, budget)
  {
    TakeOne(chosen, c);
  }

  lemma {:induction false} GreedyAt(ranked: seq<Candidate>, budget: nat, i: nat)
    requires i < |ranked|
    ensures Greedy(ranked, budget)[i] == Fits(Selected(ranked[..i], budget), ranked[i], budget)
  {
    GreedyPrefix(ranked, budget, i + 1);
    assert ranked[..i + 1] == ranked[..i] + [ranked[i]];
    assert Greedy(ranked, budget)[i] == Greedy(ranked, budget)[..i + 1][i];
  }

  // Where another choice within the limits first differs, the greedy one takes the candidate.
  lemma {:induction false} GreedyIsFirst(ranked: seq<Candidate>, budget: nat, other: seq<bool>, i: nat)
    requires |other| == |ranked| && Feasible(Chosen(ranked, other), budget) && i < |ranked|
    requires other[..i] == Greedy(ranked, budget)[..i] && other[i] != Greedy(ranked, budget)[i]
    ensures Greedy(ranked, budget)[i]
  {
    if other[i] {
      GreedyPrefix(ranked, budget, i);
      PrefixFeasible(ranked, other, budget, i + 1);
      PrefixOfChoice(ranked, other, i);
      FeasibleFits(Selected(ranked[..i], budget), ranked[i], budget);
      GreedyAt(ranked, budget, i);
    }
  }

  lemma {:induction false} FullStays(ranked: seq<Candidate>, budget: nat, i: nat)
    requires i <= |ranked| && |Selected(ranked[..i], budget)| >= MAX_ITEMS_TOTAL
    ensures Selected(ranked, budget) == Selected(ranked[..i], budget)
  {
    if i == |ranked| {
      assert ranked[..i] == ranked;
    } else {
      var n := |ranked| - 1;
      assert ranked[..n][..i] == ranked[..i];
      FullStays(ranked[..n], budget, i);
      assert ranked == ranked[..n] + [ranked[n]];
    }
  }

  // ----- the reports

  function ItemOf(c: Candidate): Item {
    Item(c.ministry, c.title, c.content, c.score, c.minutes)
  }

  function ItemsOf(chosen: seq<Candidate>, m: Ministry): seq<Item> {
    if chosen == [] then []
    else
      var n := |chosen| - 1;
      var rest := ItemsOf(chosen[..n], m);
      if chosen[n].ministry == m then rest + [ItemOf(chosen[n])] else rest
  }

  function Reports(chosen: seq<Candidate>): seq<Report> {
    seq(|MINISTRIES|, i requires 0 <= i < |MINISTRIES| =>
      Report(MINISTRIES[i], ItemsOf(chosen, MINISTRIES[i]), ItemsOf(chosen, MINISTRIES[i]) == []))
  }

  // A report that its validator accepts.
  predicate ReportFits(r: Report) {
    && |r.items| <= MAX_ITEMS_PER_MINISTRY
    && (r.nothing <==> r.items == [])
    && forall item <- r.items :: item.ministry == r.ministry
  }

  lemma {:induction false} ItemsAreCounted(chosen: seq<Candidate>, m: Ministry)
    ensures |ItemsOf(chosen, m)| == CountOf(chosen, m)
    ensures forall item <- ItemsOf(chosen, m) :: item.ministry == m
  {
    if chosen != [] {
      ItemsAreCounted(chosen[..|chosen| - 1], m);
    }
  }

  lemma {:induction false} CountsAddUp(chosen: seq<Candidate>)
    ensures CountOf(chosen, Technology) + CountOf(chosen, Cognition) + CountOf(chosen, Business) == |chosen|
  {
    if chosen != [] {
      CountsAddUp(chosen[..|chosen| - 1]);
    }
  }

  // Reading the chosen candidates in rank order, each is the next item of the report of its ministry.
  lemma {:induction false} ItemPlace(chosen: seq<Candidate>, k: nat)
    requires k < |chosen|
    ensures CountOf(chosen[..k], chosen[k].ministry) < |ItemsOf(chosen, chosen[k].ministry)|
    ensures ItemsOf(chosen, chosen[k].ministry)[CountOf(chosen[..k], chosen[k].ministry)] == ItemOf(chosen[k])
  {
    var n := |chosen| - 1;
    ItemsAreCounted(chosen[..n], chosen[k].ministry);
    if k < n {
      ItemPlace(chosen[..n], k);
      assert chosen[..n][..k] == chosen[..k];
    }
  }

  // The reports hold the selected candidates and nothing else, and every report is accepted.
  lemma ReportsPartition(ranked: seq<Candidate>, budget: nat)
    ensures forall r <- Reports(Selected(ranked, budget)) :: ReportFits(r)
    ensures var r := Reports(Selected(ranked, budget));
            |r| == 3 && |r[0].items| + |r[1].items| + |r[2].items| == |Selected(ranked, budget)|
  {
    var chosen := Selected(ranked, budget);
    GreedyIsFeasible(ranked, budget);
    CountsAddUp(chosen);
    ItemsAreCounted(chosen, Technology);
    ItemsAreCounted(chosen, Cognition);
    ItemsAreCounted(chosen, Business);
  }

  method GenerateReports(intent: string, budget: AttentionBudget, candidates: seq<Candidate>)
    returns (reports: seq<Report>)
    ensures reports == Reports(Selected(Ranked(candidates, intent), BudgetMinutes(budget)))
  {
    var ranked := Ranked(candidates, intent);
    var selected := SelectCandidates(ranked, BudgetMinutes(budget));
    reports := [];
    for i := 0 to |MINISTRIES|
      invariant reports == Reports(selected)[..i]
    {
      var items := CollectItems(selected, MINISTRIES[i]);
      reports := reports + [Report(MINISTRIES[i], items, items == [])];
    }
  }

  method SelectCandidates(ranked: seq<Candidate>, budget: nat) returns (selected: seq<Candidate>)
    ensures selected == Selected(ranked, budget)
  {
    selected := [];
    var counts := map[Technology := 0, Cognition := 0, Business := 0];
    forall m: Ministry ensures m in counts {
      match m
      case Technology => case Cognition => case Business =>
    }
    var remaining := budget;
    var i := 0;
    while i < |ranked|
      invariant i <= |ranked| && selected == Selected(ranked[..i], budget)
      invariant forall m: Ministry :: m in counts && counts[m] == CountOf(selected, m)
      invariant remaining == budget - Minutes(selected) && remaining >= 0
    {
      if |selected| >= MAX_ITEMS_TOTAL {
        FullStays(ranked, budget, i);
        return;
      }
      assert ranked[..i + 1] == ranked[..i] + [ranked[i]];
      var c := ranked[i];
      i := i + 1;
      if c.minutes > remaining {
        continue;
      }
      if counts[c.ministry] >= MAX_ITEMS_PER_MINISTRY {
        continue;
      }
      TakeOne(selected, c);
      selected := selected + [c];
      counts := counts[c.ministry := counts[c.ministry] + 1];
      remaining := remaining - c.minutes;
    }
    assert ranked[..i] == ranked;
  }

  method CollectItems(selected: seq<Candidate>, m: Ministry) returns (items: seq<Item>)
    ensures items == ItemsOf(selected, m)
  {
    items := [];
    for k := 0 to |selected|
      invariant items == ItemsOf(selected[..k], m)
    {
      assert selected[..k + 1][..k] == selected[..k];
      if selected[k].ministry == m {
        items := items + [ItemOf(selected[k])];
      }
    }
    assert selected[..|selected|] == selected;
  }
}
