/**
 * The in-memory store every page reads (src/context/DataContext.tsx): the
 * exercise catalog, the workout log and the `actionRefresh` toggle whose
 * every flip makes the provider fetch both lists again.
 *
 * The list rebuilds are functions on sequences; the provider's state and
 * its setters are the class DataProvider. The backend is not modelled: what
 * the store asks of it is appended to `serviceCalls`, and what it answers to
 * a fetch is a parameter of FetchData.
 */
module DataContext {
  import opened Domain
  import Seqs
  import Text
  import WorkoutOrder

  /** `ex.id === id`, with `null === null` holding as it does in JavaScript. */
  function HasId(id: Option<string>): Exercise -> bool {
    (e: Exercise) => e.id == id
  }

  function HasWorkoutId(id: string): Workout -> bool {
    (w: Workout) => w.id == id
  }

  function Not<T>(p: T -> bool): T -> bool {
    (x: T) => !p(x)
  }

  /** `prev.filter(ex => ex.id !== id)` */
  function WithoutExerciseId(exercises: seq<Exercise>, id: Option<string>): (r: seq<Exercise>)
    ensures forall e :: e in r ==> e in exercises && e.id != id
    ensures forall e :: e in exercises && e.id != id ==> e in r
    ensures Seqs.IsSubsequence(r, exercises)
    ensures forall e :: multiset(r)[e] == if e.id != id then multiset(exercises)[e] else 0
  {
    Seqs.FilterIsSubsequence(exercises, Not(HasId(id)));
    forall e ensures multiset(Seqs.Filter(exercises, Not(HasId(id))))[e] == if e.id != id then multiset(exercises)[e] else 0 {
      Seqs.FilterCount(exercises, Not(HasId(id)), e);
    }
    forall e | e in exercises && e.id != id ensures e in Seqs.Filter(exercises, Not(HasId(id))) {
      Seqs.FilterComplete(exercises, Not(HasId(id)), e);
    }
    Seqs.Filter(exercises, Not(HasId(id)))
  }

  /** The workout `addWorkout` stores: the given fields, with id and both timestamps taken from the clock. */
  function Stamped(data: Workout, now: nat): (w: Workout)
    ensures w.id == Text.DecimalString(now) && w.createdAt == now && w.updatedAt == now
    ensures w.date == data.date && w.exercises == data.exercises
  {
    data.(id := Text.DecimalString(now), createdAt := now, updatedAt := now)
  }

  /**
   * The fields a caller of `updateWorkout` may pass. The type says only date
   * and exercises, but the edit dialog passes a whole workout, and the spread
   * copies whatever is present; `updatedAt` is always overwritten.
   */
  datatype WorkoutPatch = WorkoutPatch(
    id: Option<string>,
    date: Option<int>,
    exercises: Option<seq<WorkoutExercise>>,
    createdAt: Option<int>)

  /** `{ ...w, ...patch, updatedAt: new Date() }` */
  function Merge(w: Workout, patch: WorkoutPatch, now: int): (r: Workout)
    ensures r.updatedAt == now
    ensures r.id == (if patch.id.Some? then patch.id.value else w.id)
    ensures r.date == (if patch.date.Some? then patch.date.value else w.date)
    ensures r.exercises == (if patch.exercises.Some? then patch.exercises.value else w.exercises)
    ensures r.createdAt == (if patch.createdAt.Some? then patch.createdAt.value else w.createdAt)
  {
    Workout(
      patch.id.GetOr(w.id),
      patch.date.GetOr(w.date),
      patch.exercises.GetOr(w.exercises),
      patch.createdAt.GetOr(w.createdAt),
      now)
  }

  /** The list `updateWorkout` leaves: matching entries merged, all others and the order untouched. */
  function UpdatedWorkouts(workouts: seq<Workout>, id: string, patch: WorkoutPatch, now: int): (r: seq<Workout>)
    ensures |r| == |workouts|
    ensures forall i :: 0 <= i < |workouts| && workouts[i].id != id ==> r[i] == workouts[i]
    ensures forall i :: 0 <= i < |workouts| && workouts[i].id == id ==>
      && r[i].updatedAt == now
      && (patch.date.Some? ==> r[i].date == patch.date.value)
      && (patch.date.None? ==> r[i].date == workouts[i].date)
      && (patch.exercises.Some? ==> r[i].exercises == patch.exercises.value)
      && (patch.exercises.None? ==> r[i].exercises == workouts[i].exercises)
      && (patch.createdAt.Some? ==> r[i].createdAt == patch.createdAt.value)
      && (patch.createdAt.None? ==> r[i].createdAt == workouts[i].createdAt)
      && (patch.id.Some? ==> r[i].id == patch.id.value)
      && (patch.id.None? ==> r[i].id == id)
  {
    seq(|workouts|, i requires 0 <= i < |workouts| =>
      if workouts[i].id == id then Merge(workouts[i], patch, now) else workouts[i])
  }

  /** An id no workout has leaves the list as it was, and nothing reports an error. */
  lemma UpdateUnknownIsNoop(workouts: seq<Workout>, id: string, patch: WorkoutPatch, now: int)
    requires forall w :: w in workouts ==> w.id != id
    ensures UpdatedWorkouts(workouts, id, patch, now) == workouts
  {
    var r := UpdatedWorkouts(workouts, id, patch, now);
    forall i | 0 <= i < |workouts| ensures r[i] == workouts[i] {
      assert workouts[i] in workouts;
    }
  }

  /** `prev.filter(w => w.id !== id)` */
  function WithoutWorkoutId(workouts: seq<Workout>, id: string): (r: seq<Workout>)
    ensures forall w :: w in r ==> w in workouts && w.id != id
    ensures forall w :: w in workouts && w.id != id ==> w in r
    ensures Seqs.IsSubsequence(r, workouts)
    ensures forall w :: multiset(r)[w] == if w.id != id then multiset(workouts)[w] else 0
  {
    Seqs.FilterIsSubsequence(workouts, Not(HasWorkoutId(id)));
    forall w ensures multiset(Seqs.Filter(workouts, Not(HasWorkoutId(id))))[w] == if w.id != id then multiset(workouts)[w] else 0 {
      Seqs.FilterCount(workouts, Not(HasWorkoutId(id)), w);
    }
    forall w | w in workouts && w.id != id ensures w in Seqs.Filter(workouts, Not(HasWorkoutId(id))) {
      Seqs.FilterComplete(workouts, Not(HasWorkoutId(id)), w);
    }
    Seqs.Filter(workouts, Not(HasWorkoutId(id)))
  }

  /** Deleting an id no workout has is a silent no-op. */
  lemma DeleteUnknownWorkoutIsNoop(workouts: seq<Workout>, id: string)
    requires forall w :: w in workouts ==> w.id != id
    ensures WithoutWorkoutId(workouts, id) == workouts
  {
    Seqs.FilterAll(workouts, Not(HasWorkoutId(id)));
  }

  /** Deleting the workout just added by its clock id gives back the earlier list, when that id was new. */
  lemma {:induction false} DeleteUndoesAdd(workouts: seq<Workout>, data: Workout, now: nat)
    requires forall w :: w in workouts ==> w.id != Text.DecimalString(now)
    ensures WithoutWorkoutId(workouts + [Stamped(data, now)], Text.DecimalString(now)) == workouts
  {
    var p := Not(HasWorkoutId(Text.DecimalString(now)));
    Seqs.FilterAppend(workouts, [Stamped(data, now)], p);
    Seqs.FilterAll(workouts, p);
    Seqs.FilterCons(Stamped(data, now), [], p);
  }

  /** Adding a workout adds its sets to the dashboard's total. */
  lemma AddWorkoutTotalSets(workouts: seq<Workout>, data: Workout, now: nat)
    ensures WorkoutOrder.TotalSets(workouts + [Stamped(data, now)])
         == WorkoutOrder.TotalSets(workouts) + WorkoutOrder.SetCount(data.exercises)
  {
    WorkoutOrder.TotalSetsAppend(workouts, [Stamped(data, now)]);
    assert [Stamped(data, now)][..0] == [];
  }

  /** What the two service reads of the fetch effect produced: a failure, or each response (absent when null). */
  datatype FetchOutcome =
    | FetchFailed
    | Fetched(exercises: Option<seq<Exercise>>, workouts: Option<seq<Workout>>)

  class DataProvider {
    var exercises: seq<Exercise>
    var workouts: seq<Workout>
    var actionRefresh: bool
    /** Every request handed to the exercise service, oldest first. */
    var serviceCalls: seq<ServiceRequest>

    /** Both lists start empty and the toggle starts false. */
    constructor ()
      ensures exercises == [] && workouts == [] && !actionRefresh && serviceCalls == []
    {
      exercises, workouts, actionRefresh, serviceCalls := [], [], false, [];
    }

    /**
     * The fetch effect, run whenever the user or the toggle changes. Without
     * a user both lists are emptied; a failed read is swallowed and changes
     * nothing; a null response empties its list.
     */
    method FetchData(hasUser: bool, outcome: FetchOutcome)
      modifies this`exercises, this`workouts
      ensures !hasUser ==> exercises == [] && workouts == []
      ensures hasUser && outcome.FetchFailed? ==> exercises == old(exercises) && workouts == old(workouts)
      ensures hasUser && outcome.Fetched? ==>
        exercises == outcome.exercises.GetOr([]) && workouts == outcome.workouts.GetOr([])
    {
      if hasUser {
        match outcome
        case FetchFailed =>
        case Fetched(storedExercises, storedWorkouts) =>
          exercises := if storedExercises.Some? then storedExercises.value else [];
          workouts := if storedWorkouts.Some? then storedWorkouts.value else [];
      } else {
        exercises := [];
        workouts := [];
      }
    }

    /** Appends the record as given, without assigning an id, and flips the toggle. */
    method AddExercise(exercise: Exercise)
      modifies this`exercises, this`actionRefresh
      ensures exercises == old(exercises) + [exercise]
      ensures actionRefresh == !old(actionRefresh)
    {
      exercises := exercises + [exercise];
      actionRefresh := !actionRefresh;
    }

    /** Hands the change to the service and flips the toggle; the local list is left to the next fetch. */
    method UpdateExercise(id: Option<string>, name: string, muscleGroup: int)
      modifies this`serviceCalls, this`actionRefresh
      ensures serviceCalls == old(serviceCalls) + [UpdateExerciseRequest(id, name, muscleGroup)]
      ensures actionRefresh == !old(actionRefresh)
    {
      serviceCalls := serviceCalls + [UpdateExerciseRequest(id, name, muscleGroup)];
      actionRefresh := !actionRefresh;
    }

    /**
     * Only an id some record has is deleted: the service is asked to delete
     * it, every record with it leaves the local list and the toggle flips.
     * Any other id changes nothing at all.
     */
    method DeleteExercise(id: Option<string>)
      modifies this`exercises, this`serviceCalls, this`actionRefresh
      ensures (exists e :: e in old(exercises) && e.id == id) ==>
        && exercises == WithoutExerciseId(old(exercises), id)
        && serviceCalls == old(serviceCalls) + [DeleteExerciseRequest(id)]
        && actionRefresh == !old(actionRefresh)
      ensures (forall e :: e in old(exercises) ==> e.id != id) ==>
        exercises == old(exercises) && serviceCalls == old(serviceCalls) && actionRefresh == old(actionRefresh)
    {
      if exists e :: e in exercises && e.id == id {
        serviceCalls := serviceCalls + [DeleteExerciseRequest(id)];
        exercises := WithoutExerciseId(exercises, id);
        actionRefresh := !actionRefresh;
      }
    }

    /** Appends one workout, stamped from the clock; the earlier entries are untouched. */
    method AddWorkout(data: Workout, now: nat)
      modifies this`workouts
      ensures workouts == old(workouts) + [Stamped(data, now)]
    {
      workouts := workouts + [Stamped(data, now)];
    }

    method UpdateWorkout(id: string, patch: WorkoutPatch, now: int)
      modifies this`workouts
      ensures workouts == UpdatedWorkouts(old(workouts), id, patch, now)
    {
      workouts := UpdatedWorkouts(workouts, id, patch, now);
    }

    method DeleteWorkout(id: string)
      modifies this`workouts
      ensures workouts == WithoutWorkoutId(old(workouts), id)
    {
      workouts := WithoutWorkoutId(workouts, id);
    }
  }
}
