/**
 * The dashboard's figures (src/pages/Dashboard.tsx): totals, the date of
 * the latest workout, the average number of sets and the two "recent" lists.
 * The page sorts the shared workouts array in place, so its effect on that
 * array is part of the model.
 */
module Dashboard {
  import opened Domain
  import opened WorkoutOrder

  /** `workouts.sort(...)`: the array is reordered in place into the stable most-recent-first order. */
  method SortInPlace(a: array<Workout>)
    modifies a
    ensures a[..] == SortByDateDesc(old(a[..]))
  {
    ghost var orig := a[..];
    var i := a.Length;
    while i > 0
      invariant 0 <= i <= a.Length
      invariant a[..i] == orig[..i]
      invariant a[i..] == SortByDateDesc(orig[i..])
    {
      i := i - 1;
      assert a[i] == orig[i] by { assert a[..i + 1][i] == orig[..i + 1][i]; }
      assert a[..i] == orig[..i] by { assert a[..i] == a[..i + 1][..i]; }
      InsertFrom(a, i);
      SortStep(orig, i);
    }
    assert a[..] == a[0..];
  }

  /** Sorting a suffix is inserting its head into the sorted rest. */
  lemma SortStep(s: seq<Workout>, i: nat)
    requires i < |s|
    ensures SortByDateDesc(s[i..]) == Insert(s[i], SortByDateDesc(s[i + 1..]))
  {
    assert s[i..][1..] == s[i + 1..];
  }

  /** One step of the sort: moves `a[i]` rightwards past the later-dated workouts after it. */
  method InsertFrom(a: array<Workout>, i: nat)
    requires i < a.Length
    modifies a
    ensures a[..i] == old(a[..i])
    ensures a[i..] == Insert(old(a[i]), old(a[i + 1..]))
  {
    ghost var x, t := a[i], a[i + 1..];
    var m := Shift(a, i, x, t);
    InsertAt(x, t, m);
  }

  /** The loop of `InsertFrom`: where `a[i]` lands and what it passed. */
  method Shift(a: array<Workout>, i: nat, ghost x: Workout, ghost t: seq<Workout>) returns (m: nat)
    requires i < a.Length && a[i] == x && a[i + 1..] == t
    modifies a
    ensures m <= |t|
    ensures a[..i] == old(a[..i])
    ensures a[i..] == t[..m] + [x] + t[m..]
    ensures forall k :: 0 <= k < m ==> t[k].date > x.date
    ensures m == |t| || t[m].date <= x.date
  {
    var v := a[i];
    var j := i;
    while j + 1 < a.Length && a[j + 1].date > v.date
      invariant i <= j < a.Length
      invariant forall k :: 0 <= k < i ==> a[k] == old(a[k])
      invariant forall k :: i <= k < j ==> a[k] == t[k - i]
      invariant forall k :: j < k < a.Length ==> a[k] == t[k - 1 - i]
      invariant forall k :: 0 <= k < j - i ==> t[k].date > x.date
    {
      a[j] := a[j + 1];
      j := j + 1;
    }
    a[j] := v;
    m := j - i;
    assert a[i..] == t[..m] + [x] + t[m..] by {
      forall k | 0 <= k < a.Length - i ensures a[i..][k] == (t[..m] + [x] + t[m..])[k] {
        if k > m { assert a[i + k] == t[k - 1]; }
      }
    }
  }

  /** Where `Insert` puts a workout: after the prefix of strictly later ones. */
  lemma {:induction false} InsertAt(w: Workout, t: seq<Workout>, m: nat)
    requires m <= |t|
    requires forall k :: 0 <= k < m ==> t[k].date > w.date
    requires m == |t| || t[m].date <= w.date
    ensures Insert(w, t) == t[..m] + [w] + t[m..]
  {
    if m == 0 {
      assert t[..0] == [] && t[0..] == t;
    } else {
      var t' := t[1..];
      forall k | 0 <= k < m - 1 ensures t'[k].date > w.date {
        assert t'[k] == t[k + 1];
      }
      InsertAt(w, t', m - 1);
      calc {
        Insert(w, t);
        { assert t[0].date > w.date; }
        [t[0]] + Insert(w, t');
        [t[0]] + (t'[..m - 1] + [w] + t'[m - 1..]);
        { SplitAfterHead(t, m); }
        t[..m] + [w] + t[m..];
      }
    }
  }

  lemma SplitAfterHead(t: seq<Workout>, m: nat)
    requires 0 < m <= |t|
    ensures forall w :: [t[0]] + (t[1..][..m - 1] + [w] + t[1..][m - 1..]) == t[..m] + [w] + t[m..]
  {
    assert t[..m] == [t[0]] + t[1..][..m - 1];
    assert t[m..] == t[1..][m - 1..];
  }

  /** `lastWorkoutDate`: absent exactly when there are no workouts, otherwise the latest date. */
  function LatestDate(workouts: seq<Workout>): (r: Option<int>)
    ensures r.None? <==> workouts == []
    ensures r.Some? ==> exists w :: w in workouts && w.date == r.value
    ensures r.Some? ==> forall w :: w in workouts ==> w.date <= r.value
  {
    if workouts == [] then None
    else
      var sorted := SortByDateDesc(workouts);
      SortIsSorted(workouts);
      assert sorted[0] in multiset(workouts);
      assert forall w :: w in workouts ==> w in multiset(sorted);
      Some(sorted[0].date)
  }

  /** The average cell shows `totalSets / totalWorkouts` only when there is a workout, and 0 otherwise. */
  datatype AverageCell = Ratio(sets: nat, workouts: nat) | ShowZero

  function Average(totalSets: nat, totalWorkouts: nat): (c: AverageCell)
    ensures c.Ratio? <==> totalWorkouts > 0
    ensures c.Ratio? ==> c.workouts > 0 && c.workouts == totalWorkouts && c.sets == totalSets
  {
    if totalWorkouts > 0 then Ratio(totalSets, totalWorkouts) else ShowZero
  }

  const RecentCount: nat := 5

  /** `exercises.slice(0, 5)`: the first five catalog entries in list order. */
  function RecentExercises(exercises: seq<Exercise>): (r: seq<Exercise>)
    ensures |r| <= RecentCount && |r| <= |exercises|
    ensures r == exercises[..|r|]
    ensures |r| == if |exercises| < RecentCount then |exercises| else RecentCount
  {
    if |exercises| <= RecentCount then exercises else exercises[..RecentCount]
  }

  /** `workouts.sort(...).slice(0, 5)`: the five latest workouts, latest first. */
  function RecentWorkouts(workouts: seq<Workout>): (r: seq<Workout>)
    ensures |r| == if |workouts| < RecentCount then |workouts| else RecentCount
    ensures SortedByDateDesc(r)
    ensures multiset(r) <= multiset(workouts)
    ensures forall x, y :: x in r && y in multiset(workouts) - multiset(r) ==> y.date <= x.date
  {
    var sorted := SortByDateDesc(workouts);
    SortIsSorted(workouts);
    var n := if |workouts| < RecentCount then |workouts| else RecentCount;
    PrefixDominates(sorted, n);
    sorted[..n]
  }

  /** A prefix of a sorted list is sorted and holds the latest of its elements. */
  lemma PrefixDominates(s: seq<Workout>, n: nat)
    requires SortedByDateDesc(s) && n <= |s|
    ensures SortedByDateDesc(s[..n])
    ensures multiset(s[..n]) <= multiset(s)
    ensures forall x, y :: x in s[..n] && y in multiset(s) - multiset(s[..n]) ==> y.date <= x.date
  {
    var r, rest := s[..n], s[n..];
    assert s == r + rest;
    assert multiset(s) - multiset(r) == multiset(rest);
    forall x: Workout, y: Workout | x in r && y in multiset(rest) ensures y.date <= x.date {
      assert y in rest;
      Dominates(s, n, x, y);
    }
  }

  lemma Dominates(s: seq<Workout>, n: nat, x: Workout, y: Workout)
    requires SortedByDateDesc(s) && n <= |s|
    requires x in s[..n] && y in s[n..]
    ensures y.date <= x.date
  {
    var i :| 0 <= i < n && s[..n][i] == x;
    var j :| 0 <= j < |s| - n && s[n..][j] == y;
    assert s[i] == x && s[n + j] == y;
  }

  /** What one render shows; `emptyState` replaces the cards when there is nothing yet. */
  datatype DashboardView = DashboardView(
    emptyState: bool,
    totalWorkouts: nat,
    totalExercises: nat,
    totalSets: nat,
    lastWorkoutDate: Option<int>,
    average: AverageCell,
    recentExercises: seq<Exercise>,
    recentWorkouts: seq<Workout>)

  /**
   * One render of the dashboard for a signed-in user. `workouts` is the
   * array the data context shares; it is left sorted most recent first.
   * Without a user the page renders nothing and touches nothing.
   */
  method Render(hasUser: bool, exercises: seq<Exercise>, workouts: array<Workout>) returns (view: Option<DashboardView>)
    modifies workouts
    ensures !hasUser ==> view == None && workouts[..] == old(workouts[..])
    ensures hasUser ==> workouts[..] == SortByDateDesc(old(workouts[..]))
    ensures hasUser ==> view.Some?
    ensures hasUser ==>
      var ws := old(workouts[..]);
      && (view.value.emptyState <==> ws == [] && exercises == [])
      && view.value.totalWorkouts == |ws|
      && view.value.totalExercises == |exercises|
      && view.value.totalSets == TotalSets(ws)
      && view.value.lastWorkoutDate == LatestDate(ws)
      && view.value.average == Average(TotalSets(ws), |ws|)
      && view.value.recentExercises == RecentExercises(exercises)
      && view.value.recentWorkouts == RecentWorkouts(ws)
  {
    if !hasUser {
      return None;
    }
    ghost var ws := workouts[..];
    var totalWorkouts := workouts.Length;
    var totalExercises := |exercises|;
    var totalSets := TotalSets(workouts[..]);
    var lastWorkoutDate: Option<int> := None;
    if workouts.Length > 0 {
      SortInPlace(workouts);
      lastWorkoutDate := Some(workouts[0].date);
    }
    var recentWorkouts: seq<Workout> := [];
    if workouts.Length > 0 {
      SortInPlace(workouts);
      SortIdempotent(ws);
      recentWorkouts := if workouts.Length < RecentCount then workouts[..] else workouts[..RecentCount];
    } else {
      assert ws == [];
    }
    view := Some(DashboardView(totalWorkouts == 0 && totalExercises == 0, totalWorkouts, totalExercises, totalSets, lastWorkoutDate,
      Average(totalSets, totalWorkouts), RecentExercises(exercises), recentWorkouts));
  }
}
