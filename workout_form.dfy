/**
 * The workout form (src/components/workout-form.tsx): a draft list of
 * exercises, each with its sets, edited by five array rebuilds, and the
 * submit handler that turns the draft into a Workout.
 *
 * The rebuilds are the functions below; the component's state and its
 * setters are the class WorkoutFormState at the end.
 */
module WorkoutForm {
  import opened Domain
  import Seqs

  predicate HasExercise(draft: seq<WorkoutExercise>, id: string) {
    exists i :: 0 <= i < |draft| && draft[i].exerciseId == id
  }

  /** The draft's invariant: no exercise appears twice. */
  predicate NoDuplicateIds(draft: seq<WorkoutExercise>) {
    forall i, j :: 0 <= i < j < |draft| ==> draft[i].exerciseId != draft[j].exerciseId
  }

  /** Every exercise in the draft has at least one set. */
  predicate EveryExerciseHasSets(draft: seq<WorkoutExercise>) {
    forall i :: 0 <= i < |draft| ==> |draft[i].sets| > 0
  }

  /** The position `catalog.find(ex => ex.id === id)` stops at, or |catalog| when none matches. */
  function FirstWithId(catalog: seq<Exercise>, id: string): (k: nat)
    ensures k <= |catalog|
    ensures k < |catalog| ==> catalog[k].id == Some(id)
    ensures forall j :: 0 <= j < k ==> catalog[j].id != Some(id)
  {
    if catalog == [] then 0
    else if catalog[0].id == Some(id) then 0
    else 1 + FirstWithId(catalog[1..], id)
  }

  function FindById(catalog: seq<Exercise>, id: string): (r: Option<Exercise>)
    ensures r.None? <==> forall e :: e in catalog ==> e.id != Some(id)
    ensures r.Some? ==> r.value in catalog && r.value.id == Some(id)
    ensures r.Some? ==> r.value == catalog[FirstWithId(catalog, id)]
  {
    var k := FirstWithId(catalog, id);
    if k < |catalog| then Some(catalog[k]) else None
  }

  /** The entry added for a catalog exercise: its display fields and one empty set. */
  function NewEntry(e: Exercise, id: string): WorkoutExercise {
    WorkoutExercise(id, e.name, e.muscleGroupType, e.muscleGroupTypeDescription, [EmptySet])
  }

  /** The draft and the selected catalog id, the two pieces of state `addExercise` writes. */
  datatype DraftEdit = DraftEdit(draft: seq<WorkoutExercise>, selectedExerciseId: string)

  /** `addExercise`: append the selected catalog exercise unless nothing is selected, it is unknown, or it is already in the draft. */
  function WithExercise(draft: seq<WorkoutExercise>, catalog: seq<Exercise>, selected: string): (r: DraftEdit)
    ensures r == DraftEdit(draft, selected)
        <==> selected == "" || FindById(catalog, selected).None? || HasExercise(draft, selected)
    ensures r != DraftEdit(draft, selected) ==>
        && r.selectedExerciseId == ""
        && |r.draft| == |draft| + 1
        && r.draft[..|draft|] == draft
        && var added, source := r.draft[|draft|], FindById(catalog, selected).value;
           && added.exerciseId == selected && source.id == Some(selected)
           && added.exerciseName == source.name
           && added.muscleGroupType == source.muscleGroupType
           && added.muscleGroupTypeDescription == source.muscleGroupTypeDescription
           && added.sets == [EmptySet]
    ensures NoDuplicateIds(draft) ==> NoDuplicateIds(r.draft)
    ensures HasExercise(r.draft, selected) <==> HasExercise(draft, selected) || r != DraftEdit(draft, selected)
  {
    if selected == "" then DraftEdit(draft, selected)
    else
      match FindById(catalog, selected)
      case None => DraftEdit(draft, selected)
      case Some(e) =>
        if HasExercise(draft, selected) then DraftEdit(draft, selected)
        else
          var r := draft + [NewEntry(e, selected)];
          assert r[..|draft|] == draft;
          assert r[|draft|].exerciseId == selected;
          DraftEdit(r, "")
  }

  /** `removeExercise`: keep, in order, the entries whose id differs. */
  function WithoutExercise(draft: seq<WorkoutExercise>, id: string): (r: seq<WorkoutExercise>)
  {
    Seqs.Filter(draft, (we: WorkoutExercise) => we.exerciseId != id)
  }

  lemma WithoutExerciseSpec(draft: seq<WorkoutExercise>, id: string)
    ensures !HasExercise(WithoutExercise(draft, id), id)
    ensures Seqs.IsSubsequence(WithoutExercise(draft, id), draft)
    ensures forall we :: we in draft && we.exerciseId != id ==> we in WithoutExercise(draft, id)
    ensures !HasExercise(draft, id) ==> WithoutExercise(draft, id) == draft
    ensures forall we :: multiset(WithoutExercise(draft, id))[we]
                      == if we.exerciseId != id then multiset(draft)[we] else 0
  {
    var r := WithoutExercise(draft, id);
    var keep := (we: WorkoutExercise) => we.exerciseId != id;
    Seqs.FilterIsSubsequence(draft, keep);
    forall we | we in draft && we.exerciseId != id
      ensures we in r
    {
      Seqs.FilterComplete(draft, keep, we);
    }
    forall we: WorkoutExercise ensures multiset(r)[we] == if we.exerciseId != id then multiset(draft)[we] else 0 {
      Seqs.FilterCount(draft, keep, we);
    }
    if !HasExercise(draft, id) {
      Seqs.FilterAll(draft, keep);
    }
    forall i | 0 <= i < |r| ensures r[i].exerciseId != id {
      assert r[i] in r;
    }
  }

  lemma {:induction false} WithoutExerciseKeepsNoDuplicates(draft: seq<WorkoutExercise>, id: string)
    requires NoDuplicateIds(draft)
    ensures NoDuplicateIds(WithoutExercise(draft, id))
  {
    if draft != [] {
      var tail := draft[1..];
      assert NoDuplicateIds(tail) by {
        forall i, j | 0 <= i < j < |tail| ensures tail[i].exerciseId != tail[j].exerciseId {
          assert tail[i] == draft[i + 1] && tail[j] == draft[j + 1];
        }
      }
      WithoutExerciseKeepsNoDuplicates(tail, id);
      var rest := WithoutExercise(tail, id);
      if draft[0].exerciseId != id {
        var r := [draft[0]] + rest;
        assert WithoutExercise(draft, id) == r;
        forall i, j | 0 <= i < j < |r| ensures r[i].exerciseId != r[j].exerciseId {
          if i == 0 {
            assert r[j] == rest[j - 1] && r[j] in rest;
            assert r[j] in tail;
            var m :| 0 <= m < |tail| && tail[m] == r[j];
            assert draft[m + 1] == r[j];
          } else {
            assert r[i] == rest[i - 1] && r[j] == rest[j - 1];
          }
        }
      }
    }
  }

  /** Rewrites the set list of every entry whose id matches and leaves the others as they are. */
  function MapMatching(draft: seq<WorkoutExercise>, id: string, f: seq<WorkoutSet> -> seq<WorkoutSet>): (r: seq<WorkoutExercise>)
    ensures SameEntries(draft, r)
    ensures forall i :: 0 <= i < |draft| && draft[i].exerciseId != id ==> r[i] == draft[i]
    ensures forall i :: 0 <= i < |draft| && draft[i].exerciseId == id ==> r[i].sets == f(draft[i].sets)
  {
    seq(|draft|, i requires 0 <= i < |draft| =>
      if draft[i].exerciseId == id then draft[i].(sets := f(draft[i].sets)) else draft[i])
  }

  /** Two drafts list the same exercises, with the same display fields, in the same order. */
  predicate SameEntries(a: seq<WorkoutExercise>, b: seq<WorkoutExercise>) {
    && |a| == |b|
    && forall i :: 0 <= i < |a| ==> a[i].(sets := []) == b[i].(sets := [])
  }

  lemma SameEntriesKeepNoDuplicates(a: seq<WorkoutExercise>, b: seq<WorkoutExercise>)
    requires SameEntries(a, b) && NoDuplicateIds(a)
    ensures NoDuplicateIds(b)
  {
    forall i, j | 0 <= i < j < |b| ensures b[i].exerciseId != b[j].exerciseId {
      assert a[i].(sets := []).exerciseId == a[i].exerciseId;
      assert a[j].(sets := []).exerciseId == a[j].exerciseId;
    }
  }

  /** `addSet`: one empty set at the end of the matching exercise's sets. */
  function WithSetAdded(draft: seq<WorkoutExercise>, id: string): (r: seq<WorkoutExercise>)
    ensures SameEntries(draft, r)
    ensures forall i :: 0 <= i < |draft| && draft[i].exerciseId != id ==> r[i] == draft[i]
    ensures forall i :: 0 <= i < |draft| && draft[i].exerciseId == id ==>
      && |r[i].sets| == |draft[i].sets| + 1
      && r[i].sets[..|draft[i].sets|] == draft[i].sets
      && r[i].sets[|draft[i].sets|] == EmptySet
  {
    var r := MapMatching(draft, id, (sets: seq<WorkoutSet>) => sets + [EmptySet]);
    assert forall i :: 0 <= i < |draft| ==> r[i].(sets := []) == draft[i].(sets := []);
    assert forall i :: 0 <= i < |draft| && draft[i].exerciseId == id ==>
      r[i].sets[..|draft[i].sets|] == draft[i].sets;
    r
  }

  /** `removeSet`: the matching exercise loses the set at `setIndex`; an index out of range changes nothing. */
  function WithSetRemoved(draft: seq<WorkoutExercise>, id: string, setIndex: int): (r: seq<WorkoutExercise>)
    ensures SameEntries(draft, r)
    ensures forall i :: 0 <= i < |draft| && draft[i].exerciseId != id ==> r[i] == draft[i]
    ensures forall i :: 0 <= i < |draft| && draft[i].exerciseId == id ==>
      var old_ := draft[i].sets;
      r[i].sets == if 0 <= setIndex < |old_| then old_[..setIndex] + old_[setIndex + 1..] else old_
  {
    var r := MapMatching(draft, id, (sets: seq<WorkoutSet>) => Seqs.WithoutIndex(sets, setIndex));
    assert forall i :: 0 <= i < |draft| ==> r[i].(sets := []) == draft[i].(sets := []);
    r
  }

  datatype SetField = Weight | Reps

  /** `{ ...set, [field]: value }` */
  function Assign(s: WorkoutSet, field: SetField, value: int): WorkoutSet {
    match field
    case Weight => s.(weight := Some(value))
    case Reps => s.(reps := Some(value))
  }

  /** `updateSet`: only the named field of one set of the matching exercise changes. */
  function WithSetUpdated(draft: seq<WorkoutExercise>, id: string, setIndex: int, field: SetField, value: int): (r: seq<WorkoutExercise>)
    ensures SameEntries(draft, r)
    ensures forall i :: 0 <= i < |draft| && draft[i].exerciseId != id ==> r[i] == draft[i]
    ensures forall i :: 0 <= i < |draft| && draft[i].exerciseId == id ==>
      && |r[i].sets| == |draft[i].sets|
      && (forall j :: 0 <= j < |draft[i].sets| && j != setIndex ==> r[i].sets[j] == draft[i].sets[j])
      && (0 <= setIndex < |draft[i].sets| ==>
            var before, after := draft[i].sets[setIndex], r[i].sets[setIndex];
            match field
            case Weight => after.weight == Some(value) && after.reps == before.reps
            case Reps => after.reps == Some(value) && after.weight == before.weight)
  {
    var update := (sets: seq<WorkoutSet>) =>
      seq(|sets|, j requires 0 <= j < |sets| => if j == setIndex then Assign(sets[j], field, value) else sets[j]);
    var r := MapMatching(draft, id, update);
    assert forall i :: 0 <= i < |draft| ==> r[i].(sets := []) == draft[i].(sets := []);
    r
  }

  /** Adding a set and then removing the set just added restores the draft. */
  lemma AddSetThenRemoveIt(draft: seq<WorkoutExercise>, k: nat)
    requires NoDuplicateIds(draft) && k < |draft|
    ensures WithSetRemoved(WithSetAdded(draft, draft[k].exerciseId), draft[k].exerciseId, |draft[k].sets|) == draft
  {
    var id := draft[k].exerciseId;
    var added := WithSetAdded(draft, id);
    var back := WithSetRemoved(added, id, |draft[k].sets|);
    forall i | 0 <= i < |draft| ensures back[i] == draft[i] {
      if i == k {
        assert added[i].sets[..|draft[i].sets|] == draft[i].sets;
        assert back[i].sets == draft[i].sets;
        assert back[i].(sets := []) == draft[i].(sets := []);
      } else {
        assert draft[i].exerciseId != id;
      }
    }
  }

  /** Writing the same value twice is the same as writing it once. */
  lemma UpdateSetIdempotent(draft: seq<WorkoutExercise>, id: string, setIndex: int, field: SetField, value: int)
    ensures var once := WithSetUpdated(draft, id, setIndex, field, value);
            WithSetUpdated(once, id, setIndex, field, value) == once
  {
    var once := WithSetUpdated(draft, id, setIndex, field, value);
    var twice := WithSetUpdated(once, id, setIndex, field, value);
    forall i | 0 <= i < |draft| ensures twice[i] == once[i] {
      if draft[i].exerciseId == id {
        assert twice[i].sets == once[i].sets;
        assert twice[i].(sets := []) == once[i].(sets := []);
      }
    }
  }

  /** Removing an exercise just added gives back the draft it was added to. */
  lemma AddExerciseThenRemoveIt(draft: seq<WorkoutExercise>, catalog: seq<Exercise>, selected: string)
    requires WithExercise(draft, catalog, selected) != DraftEdit(draft, selected)
    ensures WithoutExercise(WithExercise(draft, catalog, selected).draft, selected) == draft
  {
    var r := WithExercise(draft, catalog, selected).draft;
    var keep := (we: WorkoutExercise) => we.exerciseId != selected;
    assert r == draft + [r[|draft|]];
    Seqs.FilterAppend(draft, [r[|draft|]], keep);
    assert !HasExercise(draft, selected);
    Seqs.FilterAll(draft, keep);
  }

  /** Adding the same catalog exercise twice leaves exactly one entry for it. */
  lemma AddExerciseTwice(draft: seq<WorkoutExercise>, catalog: seq<Exercise>, selected: string)
    requires NoDuplicateIds(draft)
    ensures var once := WithExercise(draft, catalog, selected).draft;
            var twice := WithExercise(once, catalog, selected).draft;
            twice == once && NoDuplicateIds(twice)
  {
  }

  /** The remove button exists only for an exercise that has more than one set. */
  predicate RemoveSetOffered(draft: seq<WorkoutExercise>, id: string, setIndex: int) {
    exists i :: 0 <= i < |draft| && draft[i].exerciseId == id && |draft[i].sets| > 1 && 0 <= setIndex < |draft[i].sets|
  }

  /** Through the buttons the form renders, an exercise never loses its last set. */
  lemma OfferedRemoveKeepsSets(draft: seq<WorkoutExercise>, id: string, setIndex: int)
    requires NoDuplicateIds(draft) && EveryExerciseHasSets(draft) && RemoveSetOffered(draft, id, setIndex)
    ensures EveryExerciseHasSets(WithSetRemoved(draft, id, setIndex))
  {
    var k :| 0 <= k < |draft| && draft[k].exerciseId == id && |draft[k].sets| > 1 && 0 <= setIndex < |draft[k].sets|;
    var r := WithSetRemoved(draft, id, setIndex);
    forall i | 0 <= i < |r| ensures |r[i].sets| > 0 {
      if draft[i].exerciseId == id {
        assert i == k;
      }
    }
  }

  /** `removeSet` itself does not protect the last set: called directly it leaves an exercise with none. */
  lemma RemoveOnlySetEmptiesExercise(draft: seq<WorkoutExercise>, k: nat)
    requires k < |draft| && |draft[k].sets| == 1
    ensures WithSetRemoved(draft, draft[k].exerciseId, 0)[k].sets == []
    ensures !EveryExerciseHasSets(WithSetRemoved(draft, draft[k].exerciseId, 0))
  {
  }

  /** `Partial<Workout>`: the fields of the workout being edited, all absent for a new one. */
  datatype WorkoutSeed = WorkoutSeed(
    id: Option<string>,
    date: Option<int>,
    exercises: Option<seq<WorkoutExercise>>,
    createdAt: Option<int>)

  const NewWorkoutSeed: WorkoutSeed := WorkoutSeed(None, None, None, None)

  function SeedOf(w: Workout): WorkoutSeed {
    WorkoutSeed(Some(w.id), Some(w.date), Some(w.exercises), Some(w.createdAt))
  }

  /** The workout `handleSubmit` hands to `onSubmit`: `id` from the seed or "", `createdAt` from the seed or the clock. */
  function AssembleWorkout(seed: WorkoutSeed, date: int, draft: seq<WorkoutExercise>, now: int): (w: Workout)
    ensures w.date == date && w.exercises == draft && w.updatedAt == now
  {
    Workout(seed.id.GetOr(""), date, draft, seed.createdAt.GetOr(now), now)
  }

  /** Editing keeps the identity and creation time of the edited workout; a new one gets "" and the clock. */
  lemma AssembleKeepsIdentity(w: Workout, date: int, draft: seq<WorkoutExercise>, now: int)
    ensures AssembleWorkout(SeedOf(w), date, draft, now).id == w.id
    ensures AssembleWorkout(SeedOf(w), date, draft, now).createdAt == w.createdAt
    ensures AssembleWorkout(NewWorkoutSeed, date, draft, now).id == ""
    ensures AssembleWorkout(NewWorkoutSeed, date, draft, now).createdAt == now
  {
  }

  const EmptyDraftMessage: string := "Adicione pelo menos um exercício ao treino."

  /** The form component's state: the draft, the selected catalog id and the submitting flag. */
  class WorkoutFormState {
    const initialData: WorkoutSeed
    var workoutExercises: seq<WorkoutExercise>
    var selectedExerciseId: string
    var isSubmitting: bool
    var rootError: Option<string>

    constructor (initialData: WorkoutSeed)
      ensures this.initialData == initialData
      ensures workoutExercises == initialData.exercises.GetOr([])
      ensures selectedExerciseId == "" && !isSubmitting && rootError == None
    {
      this.initialData := initialData;
      workoutExercises := initialData.exercises.GetOr([]);
      selectedExerciseId := "";
      isSubmitting := false;
      rootError := None;
    }

    /** The select's `onValueChange`. */
    method Select(id: string)
      modifies this`selectedExerciseId
      ensures selectedExerciseId == id
    {
      selectedExerciseId := id;
    }

    method AddExercise(catalog: seq<Exercise>)
      modifies this`workoutExercises, this`selectedExerciseId
      ensures DraftEdit(workoutExercises, selectedExerciseId)
           == WithExercise(old(workoutExercises), catalog, old(selectedExerciseId))
      ensures old(NoDuplicateIds(workoutExercises)) ==> NoDuplicateIds(workoutExercises)
    {
      var edit := WithExercise(workoutExercises, catalog, selectedExerciseId);
      workoutExercises := edit.draft;
      selectedExerciseId := edit.selectedExerciseId;
    }

    method RemoveExercise(exerciseId: string)
      modifies this`workoutExercises
      ensures workoutExercises == WithoutExercise(old(workoutExercises), exerciseId)
      ensures old(NoDuplicateIds(workoutExercises)) ==> NoDuplicateIds(workoutExercises)
    {
      if NoDuplicateIds(workoutExercises) {
        WithoutExerciseKeepsNoDuplicates(workoutExercises, exerciseId);
      }
      workoutExercises := WithoutExercise(workoutExercises, exerciseId);
    }

    method AddSet(exerciseId: string)
      modifies this`workoutExercises
      ensures workoutExercises == WithSetAdded(old(workoutExercises), exerciseId)
      ensures old(NoDuplicateIds(workoutExercises)) ==> NoDuplicateIds(workoutExercises)
    {
      var next := WithSetAdded(workoutExercises, exerciseId);
      if NoDuplicateIds(workoutExercises) {
        SameEntriesKeepNoDuplicates(workoutExercises, next);
      }
      workoutExercises := next;
    }

    method RemoveSet(exerciseId: string, setIndex: int)
      modifies this`workoutExercises
      ensures workoutExercises == WithSetRemoved(old(workoutExercises), exerciseId, setIndex)
      ensures old(NoDuplicateIds(workoutExercises)) ==> NoDuplicateIds(workoutExercises)
    {
      var next := WithSetRemoved(workoutExercises, exerciseId, setIndex);
      if NoDuplicateIds(workoutExercises) {
        SameEntriesKeepNoDuplicates(workoutExercises, next);
      }
      workoutExercises := next;
    }

    method UpdateSet(exerciseId: string, setIndex: int, field: SetField, value: int)
      modifies this`workoutExercises
      ensures workoutExercises == WithSetUpdated(old(workoutExercises), exerciseId, setIndex, field, value)
      ensures old(NoDuplicateIds(workoutExercises)) ==> NoDuplicateIds(workoutExercises)
    {
      var next := WithSetUpdated(workoutExercises, exerciseId, setIndex, field, value);
      if NoDuplicateIds(workoutExercises) {
        SameEntriesKeepNoDuplicates(workoutExercises, next);
      }
      workoutExercises := next;
    }

    /**
     * `handleSubmit`, called through the form library's submit wrapper, which
     * replaces the form's errors (the root error among them) before the
     * handler runs: an empty draft sets the root error and submits nothing;
     * otherwise the assembled workout is handed to `onSubmit`, no root error
     * is left and the submitting flag is down again afterwards.
     */
    method HandleSubmit(date: int, now: int) returns (submitted: Option<Workout>)
      modifies this`isSubmitting, this`rootError
      ensures workoutExercises == [] ==>
        submitted == None && rootError == Some(EmptyDraftMessage) && isSubmitting == old(isSubmitting)
      ensures workoutExercises != [] ==>
        && submitted == Some(AssembleWorkout(initialData, date, workoutExercises, now))
        && !isSubmitting && rootError == None
    {
      rootError := None;
      if |workoutExercises| == 0 {
        rootError := Some(EmptyDraftMessage);
        return None;
      }
      isSubmitting := true;
      submitted := Some(AssembleWorkout(initialData, date, workoutExercises, now));
      isSubmitting := false;
    }
  }
}
