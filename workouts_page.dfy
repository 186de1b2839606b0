/**
 * The workout log page (src/pages/Workouts.tsx): the cards it lists, most
 * recent first, and the dialog state behind its add, edit and delete actions.
 */
module WorkoutsPage {
  import opened Domain
  import opened WorkoutOrder
  import Seqs
  import DataContext
  import WorkoutForm

  /**
   * `[...workouts].sort(...)`: a sorted copy. The page's list is a value, so
   * the store's own list keeps its order (unlike the dashboard, which sorts
   * the shared array itself).
   */
  function SortedWorkouts(workouts: seq<Workout>): (r: seq<Workout>)
    ensures multiset(r) == multiset(workouts)
    ensures SortedByDateDesc(r)
    ensures forall d :: Seqs.Filter(r, OnDate(d)) == Seqs.Filter(workouts, OnDate(d))
  {
    SortIsSorted(workouts);
    forall d ensures Seqs.Filter(SortByDateDesc(workouts), OnDate(d)) == Seqs.Filter(workouts, OnDate(d)) {
      SortIsStable(workouts, d);
    }
    SortByDateDesc(workouts)
  }

  /** One card: the workout and the two counts in its subtitle. */
  datatype Card = Card(workout: Workout, exerciseCount: nat, setCount: nat)

  function CardOf(w: Workout): Card {
    Card(w, |w.exercises|, SetCount(w.exercises))
  }

  function Cards(workouts: seq<Workout>): (r: seq<Card>)
    ensures |r| == |workouts|
    ensures forall i :: 0 <= i < |r| ==> r[i] == CardOf(SortedWorkouts(workouts)[i])
  {
    var sorted := SortedWorkouts(workouts);
    seq(|sorted|, i requires 0 <= i < |sorted| => CardOf(sorted[i]))
  }

  /** The cards together count every set in the log, as the dashboard's total does. */
  lemma {:induction false} CardsCountAllSets(workouts: seq<Workout>)
    ensures CardSets(Cards(workouts)) == TotalSets(workouts)
  {
    var sorted := SortedWorkouts(workouts);
    CardSetsAreTotal(Cards(workouts), sorted);
    SortKeepsTotalSets(workouts);
  }

  function CardSets(cards: seq<Card>): nat {
    if cards == [] then 0 else CardSets(cards[..|cards| - 1]) + cards[|cards| - 1].setCount
  }

  lemma {:induction false} CardSetsAreTotal(cards: seq<Card>, ws: seq<Workout>)
    requires |cards| == |ws|
    requires forall i :: 0 <= i < |cards| ==> cards[i] == CardOf(ws[i])
    ensures CardSets(cards) == TotalSets(ws)
  {
    if cards != [] {
      CardSetsAreTotal(cards[..|cards| - 1], ws[..|ws| - 1]);
    }
  }

  /** What the edit dialog submits replaces every field the form fills in. */
  function PatchOf(data: Workout): DataContext.WorkoutPatch {
    DataContext.WorkoutPatch(Some(data.id), Some(data.date), Some(data.exercises), Some(data.createdAt))
  }

  class WorkoutsPageState {
    var isAddDialogOpen: bool
    var editingWorkout: Option<Workout>

    constructor ()
      ensures !isAddDialogOpen && editingWorkout == None
    {
      isAddDialogOpen, editingWorkout := false, None;
    }

    /** The card menu's "edit" entry. */
    method StartEditing(w: Workout)
      modifies this`editingWorkout
      ensures editingWorkout == Some(w)
    {
      editingWorkout := Some(w);
    }

    method HandleAddWorkout(store: DataContext.DataProvider, data: Workout, now: nat)
      modifies this`isAddDialogOpen, store`workouts
      ensures store.workouts == old(store.workouts) + [DataContext.Stamped(data, now)]
      ensures !isAddDialogOpen
    {
      store.AddWorkout(data, now);
      isAddDialogOpen := false;
    }

    /**
     * Only a workout chosen for editing is updated, under its own id; the
     * choice is cleared afterwards. With nothing chosen the call does nothing.
     */
    method HandleEditWorkout(store: DataContext.DataProvider, data: Workout, now: int)
      modifies this`editingWorkout, store`workouts
      ensures old(editingWorkout).None? ==> store.workouts == old(store.workouts) && editingWorkout == None
      ensures old(editingWorkout).Some? ==>
        store.workouts == DataContext.UpdatedWorkouts(old(store.workouts), old(editingWorkout).value.id, PatchOf(data), now)
      ensures editingWorkout == None
    {
      if editingWorkout.Some? {
        store.UpdateWorkout(editingWorkout.value.id, PatchOf(data), now);
        editingWorkout := None;
      }
    }

    method HandleDeleteWorkout(store: DataContext.DataProvider, id: string)
      modifies store`workouts
      ensures store.workouts == DataContext.WithoutWorkoutId(old(store.workouts), id)
    {
      store.DeleteWorkout(id);
    }
  }

  /**
   * Editing through the dialog, whose form is seeded with the chosen
   * workout: every entry keeps its id, and the entries under the chosen id
   * take the form's date and exercises, keep the chosen creation time and are
   * stamped with the time of the update.
   */
  lemma EditThroughFormKeepsIdentity(workouts: seq<Workout>, edited: Workout, date: int,
                                     draft: seq<WorkoutExercise>, submitTime: int, now: int)
    ensures var data := WorkoutForm.AssembleWorkout(WorkoutForm.SeedOf(edited), date, draft, submitTime);
      var r := DataContext.UpdatedWorkouts(workouts, edited.id, PatchOf(data), now);
      && |r| == |workouts|
      && (forall i :: 0 <= i < |r| ==> r[i].id == workouts[i].id)
      && (forall i :: 0 <= i < |r| && workouts[i].id == edited.id ==>
            r[i].date == date && r[i].exercises == draft && r[i].createdAt == edited.createdAt && r[i].updatedAt == now)
  {
    WorkoutForm.AssembleKeepsIdentity(edited, date, draft, submitTime);
  }
}
