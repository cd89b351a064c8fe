/** The reports page's aggregation of the goal list: the search filter, the
    status counts with the completion rate, the per-category statistics and
    the priority counts. The date-based counts (overdue, upcoming deadlines)
    depend on the wall clock and are not part of this model. */
module Reports {
  import opened Common
  import opened Text
  import opened GoalModel

  /** Whether `g` matches an already lower-cased search term: its title,
      description or category contains the term, case-insensitively. A
      missing description or category never matches. */
  predicate Matches(g: Goal, term: string)
  {
    || Contains(Lower(g.title), term)
    || (g.description.Some? && Contains(Lower(g.description.value), term))
    || (g.category.Some? && Contains(Lower(g.category.value), term))
  }

  /** `goals.filter(goal => Matches(goal, term))`. */
  function FilterMatching(goals: seq<Goal>, term: string): (r: seq<Goal>)
    ensures |r| <= |goals|
  {
    if goals == [] then []
    else (if Matches(goals[0], term) then [goals[0]] else []) + FilterMatching(goals[1..], term)
  }

  /** The filter keeps exactly the matching goals. */
  lemma {:induction false} FilterKeepsMatches(goals: seq<Goal>, term: string)
    ensures forall g :: g in FilterMatching(goals, term) <==> g in goals && Matches(g, term)
  {
    if goals != [] {
      FilterKeepsMatches(goals[1..], term);
      assert goals == [goals[0]] + goals[1..];
    }
  }

  /** The filter keeps order: filtering a concatenation concatenates the
      filtered parts. */
  lemma {:induction false} FilterAppend(a: seq<Goal>, b: seq<Goal>, term: string)
    ensures FilterMatching(a + b, term) == FilterMatching(a, term) + FilterMatching(b, term)
  {
    if a == [] {
      assert a + b == b;
    } else {
      var ab := a + b;
      assert ab[0] == a[0] && ab[1..] == a[1..] + b;
      FilterAppend(a[1..], b, term);
      var rest := FilterMatching(a[1..], term);
      if Matches(a[0], term) {
        assert FilterMatching(ab, term) == [a[0]] + (rest + FilterMatching(b, term));
        assert FilterMatching(a, term) == [a[0]] + rest;
      } else {
        assert FilterMatching(ab, term) == [] + (rest + FilterMatching(b, term));
        assert FilterMatching(a, term) == [] + rest;
      }
    }
  }

  /** `filteredGoals`: a search term that is blank after trimming leaves the
      list as it is; any other term, lower-cased but not trimmed, keeps the
      matching goals in their order. */
  function FilteredGoals(goals: seq<Goal>, searchTerm: string): (r: seq<Goal>)
    ensures IsBlank(searchTerm) ==> r == goals
    ensures !IsBlank(searchTerm) ==> r == FilterMatching(goals, Lower(searchTerm))
  {
    if Trim(searchTerm) == "" then goals
    else FilterMatching(goals, Lower(searchTerm))
  }

  /** The term is not trimmed: a trailing space keeps "run " from matching a
      goal titled "run" that has no description or category. */
  lemma SearchTermNotTrimmed(g: Goal)
    requires g.title == "run" && g.description.None? && g.category.None?
    ensures FilteredGoals([g], "run ") == []
  {
    assert !IsBlank("run ") by { assert !IsSpace("run "[0]); }
    var term := Lower("run ");
    assert |Lower(g.title)| < |term|;
    assert !Contains(Lower(g.title), term);
    assert !Matches(g, term);
    assert [g][1..] == [];
  }

  /** The number of goals with status `st`. */
  function CountStatus(gs: seq<Goal>, st: GoalStatus): (r: nat)
    ensures r <= |gs|
  {
    if gs == [] then 0 else (if gs[0].status == st then 1 else 0) + CountStatus(gs[1..], st)
  }

  /** The number of goals with priority `p`. */
  function CountPriority(gs: seq<Goal>, p: GoalPriority): (r: nat)
    ensures r <= |gs|
  {
    if gs == [] then 0 else (if gs[0].priority == p then 1 else 0) + CountPriority(gs[1..], p)
  }

  /** No goal is both completed and in progress. */
  lemma {:induction false} CompletedAndInProgress(gs: seq<Goal>)
    ensures CountStatus(gs, Completed) + CountStatus(gs, InProgress) <= |gs|
  {
    if gs != [] {
      CompletedAndInProgress(gs[1..]);
    }
  }

  /** Every goal has exactly one of the three priorities. */
  lemma {:induction false} PrioritiesPartition(gs: seq<Goal>)
    ensures CountPriority(gs, High) + CountPriority(gs, Medium) + CountPriority(gs, Low) == |gs|
  {
    if gs != [] {
      PrioritiesPartition(gs[1..]);
    }
  }

  /** The status figures of `todayStats` (the date-based ones left out). */
  datatype TodayStats = TodayStats(totalGoals: nat, completedToday: nat, inProgress: nat, completionRate: int)

  /** `todayStats`: with no goals everything is 0; otherwise the total is
      the number of filtered goals, completed and in-progress goals are
      disjoint, and the completion rate is the completed share rounded to
      the nearest percent. */
  function ComputeTodayStats(filtered: seq<Goal>): (r: TodayStats)
    ensures filtered == [] ==> r == TodayStats(0, 0, 0, 0)
    ensures r.totalGoals == |filtered|
    ensures r.completedToday == CountStatus(filtered, Completed)
    ensures r.inProgress == CountStatus(filtered, InProgress)
    ensures r.completedToday + r.inProgress <= r.totalGoals
    ensures 0 <= r.completionRate <= 100
    ensures r.totalGoals > 0 ==>
      2 * r.totalGoals * r.completionRate - r.totalGoals <= 200 * r.completedToday < 2 * r.totalGoals * r.completionRate + r.totalGoals
  {
    if |filtered| == 0 then TodayStats(0, 0, 0, 0)
    else
      var completedToday := CountStatus(filtered, Completed);
      var inProgress := CountStatus(filtered, InProgress);
      CompletedAndInProgress(filtered);
      TodayStats(|filtered|, completedToday, inProgress, Percent(completedToday, |filtered|))
  }

  datatype PriorityStats = PriorityStats(high: nat, medium: nat, low: nat)

  /** `priorityStats`: the three counts partition the filtered goals. */
  function ComputePriorityStats(filtered: seq<Goal>): (r: PriorityStats)
    ensures filtered == [] ==> r == PriorityStats(0, 0, 0)
    ensures r.high + r.medium + r.low == |filtered|
    ensures r.high == CountPriority(filtered, High) && r.medium == CountPriority(filtered, Medium)
  {
    if |filtered| == 0 then PriorityStats(0, 0, 0)
    else
      PrioritiesPartition(filtered);
      PriorityStats(CountPriority(filtered, High), CountPriority(filtered, Medium), CountPriority(filtered, Low))
  }

  /** The accumulator stored per category while the goals are scanned;
      `progressSum` is the source's `avgProgress` before the division. */
  datatype CategoryAcc = CategoryAcc(name: string, total: nat, completed: nat, inProgress: nat, progressSum: int)

  /** One entry of `categoryStats`. */
  datatype CategoryStat = CategoryStat(name: string, total: nat, completed: nat, inProgress: nat,
                                       avgProgress: int, completionRate: int)

  /** The goals under label `n` that have status `st`. */
  function StatusIn(gs: seq<Goal>, n: string, st: GoalStatus): (r: nat)
    ensures r <= CountIn(gs, n)
  {
    if gs == [] then 0
    else
      var g := gs[|gs| - 1];
      StatusIn(gs[..|gs| - 1], n, st) + (if CategoryLabel(g) == n && g.status == st then 1 else 0)
  }

  /** The sum of the progress of the goals under label `n`. */
  function ProgressIn(gs: seq<Goal>, n: string): int
  {
    if gs == [] then 0
    else
      var g := gs[|gs| - 1];
      ProgressIn(gs[..|gs| - 1], n) + (if CategoryLabel(g) == n then g.progress else 0)
  }

  /** A label that no goal carries accumulates no progress. */
  lemma {:induction false} NoGoalsNoProgress(gs: seq<Goal>, n: string)
    requires CountIn(gs, n) == 0
    ensures ProgressIn(gs, n) == 0
  {
    if gs != [] {
      NoGoalsNoProgress(gs[..|gs| - 1], n);
    }
  }

  lemma {:induction false} StatusesInCategory(gs: seq<Goal>, n: string)
    ensures StatusIn(gs, n, Completed) + StatusIn(gs, n, InProgress) <= CountIn(gs, n)
  {
    if gs != [] {
      StatusesInCategory(gs[..|gs| - 1], n);
    }
  }

  /** What the scan has accumulated for label `n` after the goals `gs`. */
  function Tally(gs: seq<Goal>, n: string): (r: CategoryAcc)
    ensures r.name == n && r.total == CountIn(gs, n)
    ensures r.completed + r.inProgress <= r.total
  {
    StatusesInCategory(gs, n);
    CategoryAcc(n, CountIn(gs, n), StatusIn(gs, n, Completed), StatusIn(gs, n, InProgress), ProgressIn(gs, n))
  }

  /** One more goal changes only its own category's accumulator, by
      counting the goal into it. */
  lemma {:induction false} TallyStep(p: seq<Goal>, g: Goal, n: string)
    ensures Tally(p + [g], n) == if CategoryLabel(g) == n then Count(Tally(p, n), g) else Tally(p, n)
  {
    var gs := p + [g];
    assert gs[..|gs| - 1] == p && gs[|gs| - 1] == g;
  }

  /** The final `map` over one category: the average progress and the
      completion rate, each rounded to the nearest integer. */
  function Finish(acc: CategoryAcc): (r: CategoryStat)
    requires acc.total > 0
    ensures r.name == acc.name && r.total == acc.total
    ensures r.completed == acc.completed && r.inProgress == acc.inProgress
    ensures 2 * r.total * r.avgProgress - r.total <= 2 * acc.progressSum < 2 * r.total * r.avgProgress + r.total
    ensures 2 * r.total * r.completionRate - r.total <= 200 * r.completed < 2 * r.total * r.completionRate + r.total
    ensures r.completed <= r.total ==> 0 <= r.completionRate <= 100
  {
    CategoryStat(acc.name, acc.total, acc.completed, acc.inProgress,
                 RoundDiv(acc.progressSum, acc.total), Percent(acc.completed, acc.total))
  }

  /** The sum of the totals of `stats`. */
  function SumTotals(stats: seq<CategoryStat>): nat
  {
    if stats == [] then 0 else stats[0].total + SumTotals(stats[1..])
  }

  lemma {:induction false} SumTotalsMatchesCounts(stats: seq<CategoryStat>, gs: seq<Goal>, ns: seq<string>)
    requires |stats| == |ns|
    requires forall k :: 0 <= k < |ns| ==> stats[k].total == CountIn(gs, ns[k])
    ensures SumTotals(stats) == SumCounts(gs, ns)
  {
    if ns != [] {
      SumTotalsMatchesCounts(stats[1..], gs, ns[1..]);
    }
  }

  /** Lines 106-110 of the scan: one goal counted into its category. */
  function Count(acc: CategoryAcc, g: Goal): CategoryAcc
  {
    acc.(total := acc.total + 1, progressSum := acc.progressSum + g.progress,
         completed := acc.completed + (if g.status == Completed then 1 else 0),
         inProgress := acc.inProgress + (if g.status == InProgress then 1 else 0))
  }

  /** `order` and `m` are what the scan holds after the goals `gs`. */
  ghost predicate Scanned(gs: seq<Goal>, order: seq<string>, m: map<string, CategoryAcc>)
  {
    && order == Labels(gs)
    && (forall n :: n in m <==> n in order)
    && (forall n :: n in m ==> m[n] == Tally(gs, n))
  }

  /** One step of the scan keeps `Scanned`: a new label is appended to the
      order with an empty accumulator, and the goal is counted into it. */
  lemma {:induction false} ScanStep(p: seq<Goal>, g: Goal, order: seq<string>, m: map<string, CategoryAcc>,
                 order': seq<string>, m': map<string, CategoryAcc>)
    requires Scanned(p, order, m)
    requires var c := CategoryLabel(g);
             && order' == (if c in m then order else order + [c])
             && m' == m[c := Count(if c in m then m[c] else CategoryAcc(c, 0, 0, 0, 0), g)]
    ensures Scanned(p + [g], order', m')
  {
    var gs := p + [g];
    var c := CategoryLabel(g);
    LabelsSnoc(p, g);
    if c in m {
      assert forall n :: n in m' <==> n in m;
    } else {
      assert forall n :: n in m' <==> n in m || n == c;
      assert forall n :: n in order' <==> n in order || n == c;
    }
    assert forall n :: n in m' ==> m'[n] == Tally(gs, n) by {
      if c !in m {
        CountPositive(p, c);
        NoGoalsNoProgress(p, c);
        assert Tally(p, c) == CategoryAcc(c, 0, 0, 0, 0);
      }
      forall n | n in m' ensures m'[n] == Tally(gs, n) {
        TallyStep(p, g, n);
      }
    }
  }

  /** The `forEach` pass of `categoryStats`: fills a map from category
      label to accumulator, remembering the labels in insertion order. */
  method ScanCategories(filtered: seq<Goal>) returns (order: seq<string>, categoryMap: map<string, CategoryAcc>)
    ensures order == Labels(filtered)
    ensures forall n :: n in categoryMap <==> n in order
    ensures forall n :: n in categoryMap ==> categoryMap[n] == Tally(filtered, n)
  {
    order := [];
    categoryMap := map[];
    var i := 0;
    while i < |filtered|
      invariant 0 <= i <= |filtered|
      invariant Scanned(filtered[..i], order, categoryMap)
    {
      var goal := filtered[i];
      assert filtered[..i + 1] == filtered[..i] + [goal];
      var category := CategoryLabel(goal);
      ghost var before, orderBefore := categoryMap, order;
      if category !in categoryMap {
        categoryMap := categoryMap[category := CategoryAcc(category, 0, 0, 0, 0)];
        order := order + [category];
      }
      ghost var start := categoryMap[category];
      var catData := categoryMap[category];
      catData := catData.(total := catData.total + 1, progressSum := catData.progressSum + goal.progress);
      if goal.status == Completed {
        catData := catData.(completed := catData.completed + 1);
      }
      if goal.status == InProgress {
        catData := catData.(inProgress := catData.inProgress + 1);
      }
      assert catData == Count(start, goal);
      categoryMap := categoryMap[category := catData];
      assert categoryMap == before[category := catData];
      ScanStep(filtered[..i], goal, orderBefore, before, order, categoryMap);
      i := i + 1;
    }
    assert filtered[..i] == filtered;
  }

  /** `categoryStats`: one entry per category label, in order of first
      appearance, holding that category's totals; the totals are positive
      and add up to the number of filtered goals. */
  method CategoryStats(filtered: seq<Goal>) returns (stats: seq<CategoryStat>)
    ensures |stats| == |Labels(filtered)|
    ensures forall k :: 0 <= k < |stats| ==>
      Tally(filtered, Labels(filtered)[k]).total > 0 && stats[k] == Finish(Tally(filtered, Labels(filtered)[k]))
    ensures forall k :: 0 <= k < |stats| ==> stats[k].total >= 1
    ensures forall k :: 0 <= k < |stats| ==> stats[k].completed + stats[k].inProgress <= stats[k].total
    ensures forall k :: 0 <= k < |stats| ==> 0 <= stats[k].completionRate <= 100
    ensures SumTotals(stats) == |filtered|
  {
    if |filtered| == 0 {
      return [];
    }
    var order, categoryMap := ScanCategories(filtered);
    forall k | 0 <= k < |order| ensures categoryMap[order[k]].total > 0 {
      CountPositive(filtered, order[k]);
    }
    stats := seq(|order|, k requires 0 <= k < |order| => Finish(categoryMap[order[k]]));
    SumTotalsMatchesCounts(stats, filtered, order);
    CountsSumToLength(filtered);
  }
}
