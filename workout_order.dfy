/**
 * Ordering workouts most recent first, as `sort((a, b) => b.date.getTime() -
 * a.date.getTime())` does: the comparator reports equal dates as 0 and the
 * JavaScript sort is stable, so workouts on the same date keep their order.
 * Also the per-workout and total set counts the pages display.
 */
module WorkoutOrder {
  import opened Domain
  import Seqs

  predicate SortedByDateDesc(s: seq<Workout>) {
    forall i, j :: 0 <= i < j < |s| ==> s[i].date >= s[j].date
  }

  /** Places `w` before the first workout dated no later than it. */
  function Insert(w: Workout, s: seq<Workout>): (r: seq<Workout>)
    ensures multiset(r) == multiset(s) + multiset{w}
    ensures |r| == |s| + 1
  {
    if s == [] || w.date >= s[0].date then [w] + s
    else
      assert s == [s[0]] + s[1..];
      [s[0]] + Insert(w, s[1..])
  }

  lemma {:induction false} InsertKeepsSorted(w: Workout, s: seq<Workout>)
    requires SortedByDateDesc(s)
    ensures SortedByDateDesc(Insert(w, s))
  {
    if s == [] || w.date >= s[0].date {
      ConsSorted(w, s);
    } else {
      InsertKeepsSorted(w, s[1..]);
      var rest := Insert(w, s[1..]);
      forall x | x in rest ensures x.date <= s[0].date {
        assert x in multiset(rest);
      }
      ConsSorted(s[0], rest);
    }
  }

  /** A workout no earlier than every workout of a sorted list can go in front of it. */
  lemma ConsSorted(x: Workout, s: seq<Workout>)
    requires SortedByDateDesc(s)
    requires forall y :: y in s ==> y.date <= x.date
    ensures SortedByDateDesc([x] + s)
  {
    var r := [x] + s;
    forall i, j | 0 <= i < j < |r| ensures r[i].date >= r[j].date {
      assert r[j] == s[j - 1];
      if i > 0 {
        assert r[i] == s[i - 1];
      } else {
        assert s[j - 1] in s;
      }
    }
  }

  /** The stable descending sort: the earlier of two equal-date workouts stays first. */
  function SortByDateDesc(s: seq<Workout>): (r: seq<Workout>)
    ensures multiset(r) == multiset(s)
    ensures |r| == |s|
  {
    if s == [] then []
    else
      assert s == [s[0]] + s[1..];
      Insert(s[0], SortByDateDesc(s[1..]))
  }

  lemma {:induction false} SortIsSorted(s: seq<Workout>)
    ensures SortedByDateDesc(SortByDateDesc(s))
  {
    if s != [] {
      SortIsSorted(s[1..]);
      InsertKeepsSorted(s[0], SortByDateDesc(s[1..]));
    }
  }

  function OnDate(d: int): Workout -> bool {
    (w: Workout) => w.date == d
  }

  lemma {:induction false} InsertStable(w: Workout, s: seq<Workout>, d: int)
    ensures Seqs.Filter(Insert(w, s), OnDate(d)) == Seqs.Filter([w] + s, OnDate(d))
  {
    var p := OnDate(d);
    if s != [] && w.date < s[0].date {
      var s' := s[1..];
      var hw: seq<Workout> := if w.date == d then [w] else [];
      var h0: seq<Workout> := if s[0].date == d then [s[0]] else [];
      assert hw == [] || h0 == [];
      calc {
        Seqs.Filter(Insert(w, s), p);
        { assert Insert(w, s) == [s[0]] + Insert(w, s'); Seqs.FilterCons(s[0], Insert(w, s'), p); }
        h0 + Seqs.Filter(Insert(w, s'), p);
        { InsertStable(w, s', d); Seqs.FilterCons(w, s', p); }
        h0 + (hw + Seqs.Filter(s', p));
        hw + (h0 + Seqs.Filter(s', p));
        { assert s == [s[0]] + s'; Seqs.FilterCons(s[0], s', p); }
        hw + Seqs.Filter(s, p);
        { Seqs.FilterCons(w, s, p); }
        Seqs.Filter([w] + s, p);
      }
    }
  }

  /** Stability: for every date, the workouts on that date come out in their original order. */
  lemma {:induction false} SortIsStable(s: seq<Workout>, d: int)
    ensures Seqs.Filter(SortByDateDesc(s), OnDate(d)) == Seqs.Filter(s, OnDate(d))
  {
    if s != [] {
      var s' := s[1..];
      SortIsStable(s', d);
      InsertStable(s[0], SortByDateDesc(s'), d);
      Seqs.FilterCons(s[0], SortByDateDesc(s'), OnDate(d));
      assert [s[0]] + s' == s;
      Seqs.FilterCons(s[0], s', OnDate(d));
    }
  }

  /** Sorting what is already sorted changes nothing, so sorting twice is sorting once. */
  lemma {:induction false} SortOfSortedIsIdentity(s: seq<Workout>)
    requires SortedByDateDesc(s)
    ensures SortByDateDesc(s) == s
  {
    if s != [] {
      assert SortedByDateDesc(s[1..]);
      SortOfSortedIsIdentity(s[1..]);
      assert [s[0]] + s[1..] == s;
    }
  }

  lemma SortIdempotent(s: seq<Workout>)
    ensures SortByDateDesc(SortByDateDesc(s)) == SortByDateDesc(s)
  {
    SortIsSorted(s);
    SortOfSortedIsIdentity(SortByDateDesc(s));
  }

  /** `workout.exercises.reduce((total, ex) => total + ex.sets.length, 0)` */
  function SetCount(exercises: seq<WorkoutExercise>): (n: nat)
    ensures exercises == [] ==> n == 0
    ensures forall i :: 0 <= i < |exercises| ==> |exercises[i].sets| <= n
  {
    if exercises == [] then 0
    else
      var init := exercises[..|exercises| - 1];
      assert forall i :: 0 <= i < |init| ==> init[i] == exercises[i];
      SetCount(init) + |exercises[|exercises| - 1].sets|
  }

  /** The sum over all workouts of their set counts, accumulated left to right. */
  function TotalSets(workouts: seq<Workout>): (n: nat)
    ensures workouts == [] ==> n == 0
    ensures forall i :: 0 <= i < |workouts| ==> SetCount(workouts[i].exercises) <= n
  {
    if workouts == [] then 0
    else
      var init := workouts[..|workouts| - 1];
      assert forall i :: 0 <= i < |init| ==> init[i] == workouts[i];
      TotalSets(init) + SetCount(workouts[|workouts| - 1].exercises)
  }

  lemma {:induction false} TotalSetsAppend(a: seq<Workout>, b: seq<Workout>)
    ensures TotalSets(a + b) == TotalSets(a) + TotalSets(b)
    decreases |b|
  {
    if b == [] {
      assert a + b == a;
    } else {
      var n := |b| - 1;
      assert (a + b)[..|a + b| - 1] == a + b[..n];
      TotalSetsAppend(a, b[..n]);
    }
  }

  lemma {:induction false} SetCountAppend(a: seq<WorkoutExercise>, b: seq<WorkoutExercise>)
    ensures SetCount(a + b) == SetCount(a) + SetCount(b)
    decreases |b|
  {
    if b == [] {
      assert a + b == a;
    } else {
      var n := |b| - 1;
      assert (a + b)[..|a + b| - 1] == a + b[..n];
      SetCountAppend(a, b[..n]);
    }
  }

  /** A workout whose exercises each have at least one set counts at least one set per exercise. */
  lemma {:induction false} SetCountAtLeastExercises(exercises: seq<WorkoutExercise>)
    requires forall i :: 0 <= i < |exercises| ==> |exercises[i].sets| > 0
    ensures SetCount(exercises) >= |exercises|
  {
    if exercises != [] {
      SetCountAtLeastExercises(exercises[..|exercises| - 1]);
    }
  }

  lemma {:induction false} TotalSetsInsert(w: Workout, s: seq<Workout>)
    ensures TotalSets(Insert(w, s)) == SetCount(w.exercises) + TotalSets(s)
  {
    if s == [] || w.date >= s[0].date {
      TotalSetsAppend([w], s);
    } else {
      TotalSetsInsert(w, s[1..]);
      TotalSetsAppend([s[0]], Insert(w, s[1..]));
      TotalSetsAppend([s[0]], s[1..]);
      assert [s[0]] + s[1..] == s;
    }
  }

  /** Reordering the workouts does not change how many sets they hold. */
  lemma {:induction false} SortKeepsTotalSets(s: seq<Workout>)
    ensures TotalSets(SortByDateDesc(s)) == TotalSets(s)
  {
    if s != [] {
      SortKeepsTotalSets(s[1..]);
      TotalSetsInsert(s[0], SortByDateDesc(s[1..]));
      TotalSetsAppend([s[0]], s[1..]);
      assert [s[0]] + s[1..] == s;
    }
  }
}
