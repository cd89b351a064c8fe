/** The goal entity as the dashboard's views see it, and the grouping of
    goals by category that both the reports page and the categories card
    perform (`goal.category || 'Sem categoria'`, in order of first
    appearance). */
module GoalModel {
  import opened Common

  datatype GoalStatus = Planned | InProgress | Completed | Overdue | Paused
  datatype GoalPriority = High | Medium | Low

  /** A goal as the hooks hand it to the views. Dates and timestamps are the
      backend's ISO strings and are never interpreted here. */
  datatype Goal = Goal(
    id: string,
    title: string,
    description: Option<string>,
    status: GoalStatus,
    priority: GoalPriority,
    progress: int,
    dueDate: string,
    startDate: Option<string>,
    category: Option<string>,
    created_at: string,
    updated_at: string)

  /** The name under which goals without a category are grouped. */
  const Uncategorised: string := "Sem categoria"

  /** `goal.category || 'Sem categoria'`. */
  function CategoryLabel(g: Goal): (r: string)
    ensures r != ""
    ensures Truthy(g.category) ==> r == g.category.value
    ensures !Truthy(g.category) ==> r == Uncategorised
  {
    if Truthy(g.category) then g.category.value else Uncategorised
  }

  /** Distinct elements. */
  predicate Distinct(ns: seq<string>)
  {
    forall i, j :: 0 <= i < j < |ns| ==> ns[i] != ns[j]
  }

  /** The category labels of `gs`, each once, in order of first appearance:
      the key order of a JavaScript `Map` filled by one pass over `gs`.
      Defined by its last step, the way the pass extends it. */
  function Labels(gs: seq<Goal>): (r: seq<string>)
    ensures Distinct(r)
    ensures |r| <= |gs|
  {
    if gs == [] then []
    else
      var prev := Labels(gs[..|gs| - 1]);
      var c := CategoryLabel(gs[|gs| - 1]);
      if c in prev then prev else prev + [c]
  }

  /** How many goals of `gs` fall under the label `n`. */
  function CountIn(gs: seq<Goal>, n: string): (r: nat)
    ensures r <= |gs|
  {
    if gs == [] then 0
    else CountIn(gs[..|gs| - 1], n) + (if CategoryLabel(gs[|gs| - 1]) == n then 1 else 0)
  }

  /** One more goal: its label is appended when new. */
  lemma LabelsSnoc(p: seq<Goal>, g: Goal)
    ensures Labels(p + [g]) == if CategoryLabel(g) in Labels(p) then Labels(p) else Labels(p) + [CategoryLabel(g)]
  {
    var gs := p + [g];
    assert gs[..|gs| - 1] == p && gs[|gs| - 1] == g;
  }

  /** One more goal: the count of its label goes up by one, every other
      count stays. */
  lemma CountInSnoc(p: seq<Goal>, g: Goal)
    ensures forall n :: CountIn(p + [g], n) == CountIn(p, n) + (if CategoryLabel(g) == n then 1 else 0)
  {
    var gs := p + [g];
    assert gs[..|gs| - 1] == p && gs[|gs| - 1] == g;
  }

  /** A label is listed exactly when some goal carries it. */
  lemma {:induction false} InLabels(gs: seq<Goal>, n: string)
    ensures n in Labels(gs) <==> exists i :: 0 <= i < |gs| && CategoryLabel(gs[i]) == n
  {
    if gs != [] {
      var p := gs[..|gs| - 1];
      InLabels(p, n);
      if n in Labels(p) {
        var i :| 0 <= i < |p| && CategoryLabel(p[i]) == n;
        assert gs[i] == p[i];
      }
      if exists i :: 0 <= i < |gs| && CategoryLabel(gs[i]) == n {
        var i :| 0 <= i < |gs| && CategoryLabel(gs[i]) == n;
        if i < |p| {
          assert p[i] == gs[i];
        }
      }
    }
  }

  /** A label is listed exactly when it counts at least one goal. */
  lemma {:induction false} CountPositive(gs: seq<Goal>, n: string)
    ensures n in Labels(gs) <==> CountIn(gs, n) >= 1
  {
    if gs != [] {
      CountPositive(gs[..|gs| - 1], n);
    }
  }

  /** The sum of `CountIn(gs, n)` over the labels `ns`. */
  function SumCounts(gs: seq<Goal>, ns: seq<string>): nat
  {
    if ns == [] then 0 else CountIn(gs, ns[0]) + SumCounts(gs, ns[1..])
  }

  lemma {:induction false} SumCountsAppend(gs: seq<Goal>, ns: seq<string>, n: string)
    ensures SumCounts(gs, ns + [n]) == SumCounts(gs, ns) + CountIn(gs, n)
  {
    if ns != [] {
      assert (ns + [n])[1..] == ns[1..] + [n];
      SumCountsAppend(gs, ns[1..], n);
    }
  }

  /** Adding one goal to `gs` adds one to the sum over distinct labels when
      its label is among them, and nothing otherwise. */
  lemma {:induction false} SumCountsStep(gs: seq<Goal>, ns: seq<string>)
    requires gs != [] && Distinct(ns)
    ensures SumCounts(gs, ns) ==
      SumCounts(gs[..|gs| - 1], ns) + (if CategoryLabel(gs[|gs| - 1]) in ns then 1 else 0)
  {
    if ns != [] {
      assert Distinct(ns[1..]) by {
        forall i, j | 0 <= i < j < |ns[1..]| ensures ns[1..][i] != ns[1..][j] {
          assert ns[1..][i] == ns[i + 1] && ns[1..][j] == ns[j + 1];
        }
      }
      SumCountsStep(gs, ns[1..]);
      var c := CategoryLabel(gs[|gs| - 1]);
      if c == ns[0] {
        assert c !in ns[1..] by {
          forall k | 0 <= k < |ns[1..]| ensures ns[1..][k] != c {
            assert ns[1..][k] == ns[k + 1];
          }
        }
      } else {
        assert c in ns <==> c in ns[1..] by {
          assert ns == [ns[0]] + ns[1..];
        }
      }
    }
  }

  /** Every goal is counted under exactly one label: the per-category
      counts add up to the number of goals. */
  lemma {:induction false} CountsSumToLength(gs: seq<Goal>)
    ensures SumCounts(gs, Labels(gs)) == |gs|
  {
    if gs != [] {
      var p := gs[..|gs| - 1];
      var c := CategoryLabel(gs[|gs| - 1]);
      CountsSumToLength(p);
      var lp := Labels(p);
      if c in lp {
        SumCountsStep(gs, lp);
      } else {
        SumCountsAppend(gs, lp, c);
        SumCountsStep(gs, lp);
        CountPositive(p, c);
      }
    }
  }
}
