/** The categories card: the goals counted per category (missing or empty
    categories under "Sem categoria"), each category given a colour by its
    first-appearance position, the list then sorted by count, largest
    first, with a stable sort. */
module CategoriesCard {
  import opened GoalModel

  /** The eight badge colours, used in turn. */
  const CategoryColors: seq<string> := [
    "bg-blue-500", "bg-green-500", "bg-orange-500", "bg-red-500",
    "bg-purple-500", "bg-yellow-500", "bg-pink-500", "bg-indigo-500"]

  /** The colour of the category at first-appearance position `index`. */
  function Colour(index: nat): (r: string)
    ensures r in CategoryColors
    ensures r == CategoryColors[index % 8]
  {
    CategoryColors[index % |CategoryColors|]
  }

  /** One line of the card. */
  datatype Entry = Entry(name: string, count: nat, color: string)

  /** `order` and `categoryMap` are the key order and the contents of the
      counting `Map` after the goals `gs`. */
  ghost predicate Counted(gs: seq<Goal>, order: seq<string>, categoryMap: map<string, nat>)
  {
    && order == Labels(gs)
    && (forall n :: n in categoryMap <==> n in order)
    && (forall n :: n in categoryMap ==> categoryMap[n] == CountIn(gs, n))
  }

  /** One step of the counting pass keeps `Counted`: the goal's label is
      appended to the key order when new, and its count goes up by one. */
  lemma {:induction false} CountStep(p: seq<Goal>, g: Goal, order: seq<string>, m: map<string, nat>,
                  order': seq<string>, m': map<string, nat>)
    requires Counted(p, order, m)
    requires var c := CategoryLabel(g);
             && order' == (if c in m then order else order + [c])
             && m' == m[c := (if c in m then m[c] else 0) + 1]
    ensures Counted(p + [g], order', m')
  {
    var c := CategoryLabel(g);
    LabelsSnoc(p, g);
    CountInSnoc(p, g);
    if c in m {
      assert forall n :: n in m' <==> n in m;
    } else {
      CountPositive(p, c);
      assert forall n :: n in m' <==> n in m || n == c;
      assert forall n :: n in order' <==> n in order || n == c;
    }
  }

  /** The `forEach` that fills the `Map<string, number>`: afterwards its
      keys, in insertion order, are the labels in order of first appearance,
      and each label maps to the number of goals under it. */
  method CountCategories(goals: seq<Goal>) returns (order: seq<string>, categoryMap: map<string, nat>)
    ensures order == Labels(goals)
    ensures forall n :: n in categoryMap <==> n in order
    ensures forall n :: n in categoryMap ==> categoryMap[n] == CountIn(goals, n) >= 1
  {
    order := [];
    categoryMap := map[];
    var i := 0;
    while i < |goals|
      invariant 0 <= i <= |goals|
      invariant Counted(goals[..i], order, categoryMap)
    {
      assert goals[..i + 1] == goals[..i] + [goals[i]];
      ghost var before, orderBefore := categoryMap, order;
      var category := CategoryLabel(goals[i]);
      if category !in categoryMap {
        order := order + [category];
      }
      categoryMap := categoryMap[category := (if category in categoryMap then categoryMap[category] else 0) + 1];
      CountStep(goals[..i], goals[i], orderBefore, before, order, categoryMap);
      i := i + 1;
    }
    assert goals[..i] == goals;
    forall n | n in categoryMap ensures CountIn(goals, n) >= 1 {
      CountPositive(goals, n);
    }
  }

  /** `Array.from(categoryMap.entries()).map(...)`: one entry per key, in
      key order, coloured by its position. */
  function Colored(order: seq<string>, categoryMap: map<string, nat>): (r: seq<Entry>)
    requires forall n :: n in order ==> n in categoryMap
    ensures |r| == |order|
    ensures forall i :: 0 <= i < |r| ==> r[i].name == order[i] && r[i].count == categoryMap[order[i]]
    ensures forall i :: 0 <= i < |r| ==> r[i].color == CategoryColors[i % 8]
  {
    seq(|order|, i requires 0 <= i < |order| => Entry(order[i], categoryMap[order[i]], Colour(i)))
  }

  /** The card's entries before sorting, in terms of the goals alone. */
  ghost function Unsorted(goals: seq<Goal>): (r: seq<Entry>)
    ensures |r| == |Labels(goals)|
    ensures forall j :: 0 <= j < |r| ==> r[j] == Entry(Labels(goals)[j], CountIn(goals, Labels(goals)[j]), Colour(j))
  {
    var ls := Labels(goals);
    seq(|ls|, i requires 0 <= i < |ls| => Entry(ls[i], CountIn(goals, ls[i]), Colour(i)))
  }

  /** Non-increasing by count. */
  predicate Sorted(s: seq<Entry>)
  {
    forall i, j :: 0 <= i < j < |s| ==> s[i].count >= s[j].count
  }

  /** No two entries share a name. */
  predicate DistinctNames(s: seq<Entry>)
  {
    forall i, j :: 0 <= i < j < |s| ==> s[i].name != s[j].name
  }

  /** `[x]` when `x` has count `k`, otherwise nothing. */
  function Keep(x: Entry, k: nat): seq<Entry>
  {
    if x.count == k then [x] else []
  }

  /** The entries of `s` whose count is `k`, in their order in `s`. */
  function WithCount(s: seq<Entry>, k: nat): seq<Entry>
  {
    if s == [] then [] else Keep(s[0], k) + WithCount(s[1..], k)
  }

  lemma {:induction false} WithCountAppend(a: seq<Entry>, b: seq<Entry>, k: nat)
    ensures WithCount(a + b, k) == WithCount(a, k) + WithCount(b, k)
  {
    if a == [] {
      assert a + b == b;
    } else {
      var ab := a + b;
      assert ab[0] == a[0];
      assert ab[1..] == a[1..] + b;
      WithCountAppend(a[1..], b, k);
      calc {
        WithCount(ab, k);
        Keep(a[0], k) + WithCount(a[1..] + b, k);
        Keep(a[0], k) + (WithCount(a[1..], k) + WithCount(b, k));
        (Keep(a[0], k) + WithCount(a[1..], k)) + WithCount(b, k);
      }
    }
  }

  /** The sum of the counts of `s`. */
  function SumEntryCounts(s: seq<Entry>): nat
  {
    if s == [] then 0 else s[0].count + SumEntryCounts(s[1..])
  }

  lemma {:induction false} SumEntryCountsAppend(s: seq<Entry>, e: Entry)
    ensures SumEntryCounts(s + [e]) == SumEntryCounts(s) + e.count
  {
    if s != [] {
      assert (s + [e])[1..] == s[1..] + [e];
      SumEntryCountsAppend(s[1..], e);
    }
  }

  /** Inserts `e` into the sorted `s` after every entry whose count is at
      least `e`'s. */
  function Insert(e: Entry, s: seq<Entry>): seq<Entry>
  {
    if s == [] then [e]
    else if e.count > s[0].count then [e] + s
    else [s[0]] + Insert(e, s[1..])
  }

  /** `.sort((a, b) => b.count - a.count)`: a stable sort by count,
      largest first, as an insertion sort. */
  function SortByCount(s: seq<Entry>): seq<Entry>
  {
    if s == [] then [] else Insert(s[|s| - 1], SortByCount(s[..|s| - 1]))
  }

  /** Insertion adds `e` and nothing else. */
  lemma {:induction false} InsertPermutes(e: Entry, s: seq<Entry>)
    ensures |Insert(e, s)| == |s| + 1
    ensures multiset(Insert(e, s)) == multiset(s) + multiset{e}
    ensures SumEntryCounts(Insert(e, s)) == SumEntryCounts(s) + e.count
  {
    if s != [] && e.count <= s[0].count {
      assert s == [s[0]] + s[1..];
      InsertPermutes(e, s[1..]);
      assert ([s[0]] + Insert(e, s[1..]))[1..] == Insert(e, s[1..]);
    } else if s != [] {
      assert ([e] + s)[1..] == s;
    }
  }

  /** An entry whose count is at least every count of a sorted list can go
      in front of it. */
  lemma {:induction false} SortedCons(x: Entry, t: seq<Entry>)
    requires Sorted(t)
    requires forall y :: y in t ==> x.count >= y.count
    ensures Sorted([x] + t)
  {
    var r := [x] + t;
    forall i, j | 0 <= i < j < |r| ensures r[i].count >= r[j].count {
      assert r[j] == t[j - 1];
      if i > 0 {
        assert r[i] == t[i - 1];
      }
    }
  }

  /** An entry whose name no entry of a list has can go in front of it. */
  lemma {:induction false} DistinctCons(x: Entry, t: seq<Entry>)
    requires DistinctNames(t)
    requires forall y :: y in t ==> x.name != y.name
    ensures DistinctNames([x] + t)
  {
    var r := [x] + t;
    forall i, j | 0 <= i < j < |r| ensures r[i].name != r[j].name {
      assert r[j] == t[j - 1];
      if i > 0 {
        assert r[i] == t[i - 1];
      }
    }
  }

  /** The entries of `Insert(e, s)` are `e` and those of `s`. */
  lemma InsertMembers(e: Entry, s: seq<Entry>)
    ensures forall y :: y in Insert(e, s) ==> y == e || y in s
  {
    InsertPermutes(e, s);
    forall y | y in Insert(e, s) ensures y == e || y in s {
      assert y in multiset(Insert(e, s));
    }
  }

  lemma {:induction false} InsertSorted(e: Entry, s: seq<Entry>)
    requires Sorted(s)
    ensures Sorted(Insert(e, s))
  {
    if s == [] {
    } else if e.count > s[0].count {
      SortedCons(e, s);
    } else {
      var t := Insert(e, s[1..]);
      SortedTail(s);
      InsertSorted(e, s[1..]);
      InsertMembers(e, s[1..]);
      forall y | y in t ensures s[0].count >= y.count {
        if y != e {
          var m :| 0 <= m < |s[1..]| && s[1..][m] == y;
          assert s[m + 1] == y;
        }
      }
      SortedCons(s[0], t);
    }
  }

  lemma {:induction false} InsertDistinct(e: Entry, s: seq<Entry>)
    requires DistinctNames(s)
    requires forall x :: x in s ==> x.name != e.name
    ensures DistinctNames(Insert(e, s))
  {
    if s == [] {
    } else if e.count > s[0].count {
      DistinctCons(e, s);
    } else {
      var t := Insert(e, s[1..]);
      assert DistinctNames(s[1..]) by {
        forall i, j | 0 <= i < j < |s[1..]| ensures s[1..][i].name != s[1..][j].name {
          assert s[1..][i] == s[i + 1] && s[1..][j] == s[j + 1];
        }
      }
      assert forall x :: x in s[1..] ==> x.name != e.name by {
        forall x | x in s[1..] ensures x.name != e.name {
          assert x in s;
        }
      }
      InsertDistinct(e, s[1..]);
      InsertMembers(e, s[1..]);
      forall y | y in t ensures s[0].name != y.name {
        if y != e {
          var m :| 0 <= m < |s[1..]| && s[1..][m] == y;
          assert s[m + 1] == y;
        }
      }
      DistinctCons(s[0], t);
    }
  }

  /** The tail of a sorted list is sorted. */
  lemma {:induction false} SortedTail(s: seq<Entry>)
    requires Sorted(s) && s != []
    ensures Sorted(s[1..])
  {
    forall i, j | 0 <= i < j < |s[1..]| ensures s[1..][i].count >= s[1..][j].count {
      assert s[1..][i] == s[i + 1] && s[1..][j] == s[j + 1];
    }
  }

  /** A sorted list whose first count is below `k` has no entry with count `k`. */
  lemma {:induction false} NoneWithCount(s: seq<Entry>, k: nat)
    requires Sorted(s) && s != [] && s[0].count < k
    ensures WithCount(s, k) == []
  {
    assert WithCount(s, k) == Keep(s[0], k) + WithCount(s[1..], k);
    if |s| > 1 {
      SortedTail(s);
      assert s[1..][0] == s[1];
      NoneWithCount(s[1..], k);
    }
  }

  /** In a sorted list, `e` lands after every entry of its own count. */
  lemma {:induction false} InsertStable(e: Entry, s: seq<Entry>, k: nat)
    requires Sorted(s)
    ensures WithCount(Insert(e, s), k) == WithCount(s, k) + Keep(e, k)
  {
    if s == [] {
      assert WithCount([e], k) == Keep(e, k) + WithCount([], k);
    } else if e.count > s[0].count {
      assert WithCount([e] + s, k) == WithCount(s, k) + Keep(e, k) by {
        var r := [e] + s;
        assert r[0] == e && r[1..] == s;
        if e.count == k {
          NoneWithCount(s, k);
        }
      }
    } else {
      var t := Insert(e, s[1..]);
      assert WithCount([s[0]] + t, k) == WithCount(s, k) + Keep(e, k) by {
        SortedTail(s);
        InsertStable(e, s[1..], k);
        var r := [s[0]] + t;
        assert r[0] == s[0] && r[1..] == t;
        assert WithCount(r, k) == Keep(s[0], k) + (WithCount(s[1..], k) + Keep(e, k));
      }
    }
  }

  /** The sort is a permutation and keeps the total count. */
  lemma {:induction false} SortPermutes(s: seq<Entry>)
    ensures |SortByCount(s)| == |s|
    ensures multiset(SortByCount(s)) == multiset(s)
    ensures SumEntryCounts(SortByCount(s)) == SumEntryCounts(s)
  {
    if s != [] {
      var p, e := s[..|s| - 1], s[|s| - 1];
      assert s == p + [e];
      SortPermutes(p);
      InsertPermutes(e, SortByCount(p));
      SumEntryCountsAppend(p, e);
    }
  }

  /** The sort's result is non-increasing by count. */
  lemma {:induction false} SortSorted(s: seq<Entry>)
    ensures Sorted(SortByCount(s))
  {
    if s != [] {
      SortSorted(s[..|s| - 1]);
      InsertSorted(s[|s| - 1], SortByCount(s[..|s| - 1]));
    }
  }

  /** The sort keeps names distinct. */
  lemma {:induction false} SortDistinct(s: seq<Entry>)
    requires DistinctNames(s)
    ensures DistinctNames(SortByCount(s))
  {
    if s != [] {
      var p, e := s[..|s| - 1], s[|s| - 1];
      assert DistinctNames(p);
      SortDistinct(p);
      SortPermutes(p);
      forall x | x in SortByCount(p) ensures x.name != e.name {
        assert x in multiset(p);
        var m :| 0 <= m < |p| && p[m] == x;
        assert s[m] == x;
      }
      InsertDistinct(e, SortByCount(p));
    }
  }

  /** The sort is stable: the entries of any one count keep their order. */
  lemma {:induction false} SortStable(s: seq<Entry>, k: nat)
    ensures WithCount(SortByCount(s), k) == WithCount(s, k)
  {
    if s != [] {
      var p, e := s[..|s| - 1], s[|s| - 1];
      assert s == p + [e];
      SortStable(p, k);
      SortSorted(p);
      InsertStable(e, SortByCount(p), k);
      WithCountAppend(p, [e], k);
      assert WithCount([e], k) == Keep(e, k) + WithCount([], k);
    }
  }

  /** A stable sort by count has only one possible result: two lists that
      are both non-increasing by count, rearrange the same entries and agree
      on the order of each count's entries are equal. So `SortByCount` is
      what any stable descending sort by count returns. */
  lemma {:induction false} StableSortUnique(a: seq<Entry>, b: seq<Entry>)
    requires Sorted(a) && Sorted(b)
    requires multiset(a) == multiset(b)
    requires forall k :: WithCount(a, k) == WithCount(b, k)
    ensures a == b
  {
    if a == [] {
      assert |multiset(b)| == 0;
    } else {
      assert b != [] by {
        assert a[0] in multiset(b);
      }
      assert a[0].count == b[0].count by {
        assert a[0] in multiset(b);
        assert b[0] in multiset(a);
      }
      var m := a[0].count;
      assert WithCount(a, m)[0] == a[0];
      assert WithCount(b, m)[0] == b[0];
      assert a[0] == b[0];
      assert a == [a[0]] + a[1..];
      assert b == [b[0]] + b[1..];
      forall k ensures WithCount(a[1..], k) == WithCount(b[1..], k) {
        assert WithCount(a, k) == Keep(a[0], k) + WithCount(a[1..], k);
        assert WithCount(b, k) == Keep(b[0], k) + WithCount(b[1..], k);
        var n := |Keep(a[0], k)|;
        assert WithCount(a[1..], k) == WithCount(a, k)[n..];
        assert WithCount(b[1..], k) == WithCount(b, k)[n..];
      }
      assert multiset(a[1..]) == multiset(b[1..]) by {
        assert multiset(a) == multiset{a[0]} + multiset(a[1..]);
        assert multiset(b) == multiset{b[0]} + multiset(b[1..]);
        assert multiset(a[1..]) == multiset(a) - multiset{a[0]};
        assert multiset(b[1..]) == multiset(b) - multiset{b[0]};
      }
      StableSortUnique(a[1..], b[1..]);
    }
  }

  /** The entry counts over the labels `ns` add up like the label counts. */
  lemma {:induction false} EntrySums(es: seq<Entry>, gs: seq<Goal>, ns: seq<string>)
    requires |es| == |ns|
    requires forall i :: 0 <= i < |ns| ==> es[i].count == CountIn(gs, ns[i])
    ensures SumEntryCounts(es) == SumCounts(gs, ns)
  {
    if ns != [] {
      EntrySums(es[1..], gs, ns[1..]);
    }
  }

  /** What the card shows for a non-empty goal list: exactly one entry per
      category label, carrying the label's goal count (at least one) and the
      colour of its first-appearance position; counts adding up to the
      number of goals; non-increasing by count, with entries of equal count
      in first-appearance order. */
  ghost predicate IsCard(goals: seq<Goal>, r: seq<Entry>)
  {
    && multiset(r) == multiset(Unsorted(goals))
    && |r| == |Labels(goals)|
    && (forall j :: 0 <= j < |Labels(goals)| ==>
          Entry(Labels(goals)[j], CountIn(goals, Labels(goals)[j]), Colour(j)) in r)
    && (forall i :: 0 <= i < |r| ==> r[i].count >= 1)
    && DistinctNames(r)
    && SumEntryCounts(r) == |goals|
    && Sorted(r)
    && (forall k :: WithCount(r, k) == WithCount(Unsorted(goals), k))
  }

  /** The sorted entries are the unsorted ones rearranged: one per label,
      each counting at least one goal. */
  lemma {:induction false} CardContents(goals: seq<Goal>)
    ensures var r := SortByCount(Unsorted(goals));
            && multiset(r) == multiset(Unsorted(goals))
            && |r| == |Labels(goals)|
            && (forall j :: 0 <= j < |Labels(goals)| ==> Unsorted(goals)[j] in r)
            && (forall i :: 0 <= i < |r| ==> r[i].count >= 1)
  {
    var entries := Unsorted(goals);
    var r := SortByCount(entries);
    SortPermutes(entries);
    forall j | 0 <= j < |entries| ensures entries[j] in r {
      assert entries[j] in multiset(r);
    }
    forall i | 0 <= i < |r| ensures r[i].count >= 1 {
      assert r[i] in multiset(entries);
      var j :| 0 <= j < |entries| && entries[j] == r[i];
      CountPositive(goals, Labels(goals)[j]);
    }
  }

  /** The sorted entries count every goal once. */
  lemma {:induction false} CardSum(goals: seq<Goal>)
    ensures SumEntryCounts(SortByCount(Unsorted(goals))) == |goals|
  {
    var entries := Unsorted(goals);
    SortPermutes(entries);
    EntrySums(entries, goals, Labels(goals));
    CountsSumToLength(goals);
  }

  /** The sorted entries have all the properties of the card. */
  lemma {:induction false} CardFacts(goals: seq<Goal>)
    ensures IsCard(goals, SortByCount(Unsorted(goals)))
  {
    var entries := Unsorted(goals);
    var r := SortByCount(entries);
    CardContents(goals);
    CardSum(goals);
    SortDistinct(entries);
    SortSorted(entries);
    forall k ensures WithCount(r, k) == WithCount(entries, k) {
      SortStable(entries, k);
    }
  }

  /** The `categories` memo: no entries while loading or with no goals,
      otherwise the card described by `IsCard`. */
  method Categories(goals: seq<Goal>, loading: bool) returns (r: seq<Entry>)
    ensures loading || goals == [] ==> r == []
    ensures !loading ==> IsCard(goals, r)
  {
    if loading || |goals| == 0 {
      CardFacts(goals);
      return [];
    }
    var order, categoryMap := CountCategories(goals);
    var entries := Colored(order, categoryMap);
    assert entries == Unsorted(goals);
    r := SortByCount(entries);
    CardFacts(goals);
  }
}
