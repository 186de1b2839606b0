/**
 * The exercise catalog page (src/pages/Exercises.tsx): the search and group
 * filters over the store's exercises, and the dialog state behind editing
 * and deleting an entry.
 *
 * The group filter compares the record's `muscleGroup` property with the
 * selected string using strict equality. The records the backend returns
 * carry `muscleGroupType` instead, so for them the property is absent; the
 * model keeps that comparison as written.
 */
module ExercisesPage {
  import opened Domain
  import Seqs
  import Text
  import DataContext

  /** `exercise.name.toLowerCase().includes(searchTerm.toLowerCase())` */
  predicate NameMatches(e: Exercise, searchTerm: string): (b: bool)
    ensures searchTerm == "" ==> b
    ensures Text.Lower(searchTerm) == Text.Lower(e.name) ==> b
    ensures b ==> |searchTerm| <= |e.name|
  {
    Text.Includes(Text.Lower(e.name), Text.Lower(searchTerm))
  }

  /** `exercise.muscleGroup === filterMuscleGroup`: only a string property can equal the selected string. */
  predicate InGroup(e: Exercise, group: string): (b: bool)
    ensures !e.muscleGroup.Str? ==> !b
    ensures b ==> e.muscleGroup.s == group
  {
    e.muscleGroup == Str(group)
  }

  function MatchesSearch(searchTerm: string): Exercise -> bool {
    (e: Exercise) => NameMatches(e, searchTerm)
  }

  function MatchesGroup(group: string): Exercise -> bool {
    (e: Exercise) => InGroup(e, group)
  }

  /** An entry is shown when it meets every filter that is switched on (an empty string switches it off). */
  predicate Shown(e: Exercise, searchTerm: string, group: string) {
    (searchTerm != "" ==> NameMatches(e, searchTerm)) && (group != "" ==> InGroup(e, group))
  }

  function ShownBy(searchTerm: string, group: string): Exercise -> bool {
    (e: Exercise) => Shown(e, searchTerm, group)
  }

  /** The filter effect: the search filter first, then the group filter, each only when set. */
  function FilteredExercises(exercises: seq<Exercise>, searchTerm: string, group: string): (r: seq<Exercise>)
    ensures searchTerm == "" && group == "" ==> r == exercises
    ensures forall e :: e in r <==> e in exercises && Shown(e, searchTerm, group)
  {
    var afterSearch := if searchTerm != "" then Seqs.Filter(exercises, MatchesSearch(searchTerm)) else exercises;
    var r := if group != "" then Seqs.Filter(afterSearch, MatchesGroup(group)) else afterSearch;
    FilteredIsOneFilter(exercises, searchTerm, group);
    forall e | e in exercises && Shown(e, searchTerm, group) ensures e in Seqs.Filter(exercises, ShownBy(searchTerm, group)) {
      Seqs.FilterComplete(exercises, ShownBy(searchTerm, group), e);
    }
    r
  }

  /** The two filters in a row keep exactly what one filter on `Shown` keeps, in the same order. */
  lemma FilteredIsOneFilter(exercises: seq<Exercise>, searchTerm: string, group: string)
    ensures (var afterSearch := if searchTerm != "" then Seqs.Filter(exercises, MatchesSearch(searchTerm)) else exercises;
             if group != "" then Seqs.Filter(afterSearch, MatchesGroup(group)) else afterSearch)
         == Seqs.Filter(exercises, ShownBy(searchTerm, group))
  {
    var shown := ShownBy(searchTerm, group);
    if searchTerm != "" && group != "" {
      Seqs.FilterFilter(exercises, MatchesSearch(searchTerm), MatchesGroup(group), shown);
    } else if searchTerm != "" {
      Seqs.FilterSameBy(exercises, MatchesSearch(searchTerm), shown);
    } else if group != "" {
      Seqs.FilterSameBy(exercises, MatchesGroup(group), shown);
    } else {
      Seqs.FilterAll(exercises, shown);
    }
  }

  /** The page lists catalog entries in catalog order, each as often as the catalog holds it. */
  lemma FilteredIsSubsequence(exercises: seq<Exercise>, searchTerm: string, group: string)
    ensures Seqs.IsSubsequence(FilteredExercises(exercises, searchTerm, group), exercises)
    ensures forall e :: multiset(FilteredExercises(exercises, searchTerm, group))[e]
                     == if Shown(e, searchTerm, group) then multiset(exercises)[e] else 0
  {
    FilteredIsOneFilter(exercises, searchTerm, group);
    Seqs.FilterIsSubsequence(exercises, ShownBy(searchTerm, group));
    forall e ensures multiset(Seqs.Filter(exercises, ShownBy(searchTerm, group)))[e]
                  == if Shown(e, searchTerm, group) then multiset(exercises)[e] else 0 {
      Seqs.FilterCount(exercises, ShownBy(searchTerm, group), e);
    }
  }

  /** Search ignores ASCII case: a term and its lower-case form select the same entries. */
  lemma SearchIgnoresCase(exercises: seq<Exercise>, searchTerm: string, group: string)
    ensures FilteredExercises(exercises, Text.Lower(searchTerm), group) == FilteredExercises(exercises, searchTerm, group)
  {
    Text.LowerIdempotent(searchTerm);
    FilteredIsOneFilter(exercises, searchTerm, group);
    FilteredIsOneFilter(exercises, Text.Lower(searchTerm), group);
    if searchTerm == "" {
      assert Text.Lower(searchTerm) == "";
    } else {
      assert Text.Lower(searchTerm) != "";
    }
    Seqs.FilterSameBy(exercises, ShownBy(Text.Lower(searchTerm), group), ShownBy(searchTerm, group));
  }

  /**
   * Any group filter hides every entry whose `muscleGroup` is not a string,
   * which is every entry the backend returns: selecting a group empties the list.
   */
  lemma GroupFilterHidesUntyped(exercises: seq<Exercise>, searchTerm: string, group: string)
    requires group != ""
    requires forall e :: e in exercises ==> !e.muscleGroup.Str?
    ensures FilteredExercises(exercises, searchTerm, group) == []
  {
    FilteredIsOneFilter(exercises, searchTerm, group);
    Seqs.FilterNone(exercises, ShownBy(searchTerm, group));
  }

  /** The value of the "Todos os grupos" option in the group select. */
  const AllGroupsOption: string := "Peito"

  /**
   * Choosing "Todos os grupos" does not switch the group filter off: it keeps
   * only entries whose `muscleGroup` is the string "Peito".
   */
  lemma AllGroupsOptionFiltersByPeito(exercises: seq<Exercise>, searchTerm: string)
    ensures forall e :: e in FilteredExercises(exercises, searchTerm, AllGroupsOption) ==> e.muscleGroup == Str("Peito")
    ensures FilteredExercises(exercises, searchTerm, AllGroupsOption)
         == FilteredExercises(FilteredExercises(exercises, searchTerm, ""), "", AllGroupsOption)
  {
    FilteredIsOneFilter(exercises, searchTerm, AllGroupsOption);
    FilteredIsOneFilter(exercises, searchTerm, "");
    var afterSearch := FilteredExercises(exercises, searchTerm, "");
    FilteredIsOneFilter(afterSearch, "", AllGroupsOption);
    if searchTerm != "" {
      Seqs.FilterSameBy(exercises, MatchesSearch(searchTerm), ShownBy(searchTerm, ""));
      Seqs.FilterSameBy(afterSearch, MatchesGroup(AllGroupsOption), ShownBy("", AllGroupsOption));
    } else {
      Seqs.FilterAll(exercises, ShownBy(searchTerm, ""));
      Seqs.FilterSameBy(exercises, MatchesGroup(AllGroupsOption), ShownBy("", AllGroupsOption));
    }
  }

  class ExercisesPageState {
    var isAddDialogOpen: bool
    var editingExercise: Option<Exercise>
    var searchTerm: string
    var filterMuscleGroup: string
    var filteredExercises: seq<Exercise>

    /** The filtered list starts as the store's list; both filters start empty. */
    constructor (exercises: seq<Exercise>)
      ensures !isAddDialogOpen && editingExercise == None
      ensures searchTerm == "" && filterMuscleGroup == "" && filteredExercises == exercises
    {
      isAddDialogOpen, editingExercise := false, None;
      searchTerm, filterMuscleGroup, filteredExercises := "", "", exercises;
    }

    /** The search box's `onChange`. */
    method HandleSearch(value: string)
      modifies this`searchTerm
      ensures searchTerm == value
    {
      searchTerm := value;
    }

    /** The group select's `onValueChange`. */
    method SelectGroup(value: string)
      modifies this`filterMuscleGroup
      ensures filterMuscleGroup == value
    {
      filterMuscleGroup := value;
    }

    /** The filter effect, run when the store's list or a filter changes. */
    method ApplyFilters(exercises: seq<Exercise>)
      modifies this`filteredExercises
      ensures filteredExercises == FilteredExercises(exercises, searchTerm, filterMuscleGroup)
    {
      var result := exercises;
      if searchTerm != "" {
        result := Seqs.Filter(result, MatchesSearch(searchTerm));
      }
      if filterMuscleGroup != "" {
        result := Seqs.Filter(result, MatchesGroup(filterMuscleGroup));
      }
      filteredExercises := result;
    }

    method ResetFilters()
      modifies this`searchTerm, this`filterMuscleGroup
      ensures searchTerm == "" && filterMuscleGroup == ""
    {
      searchTerm := "";
      filterMuscleGroup := "";
    }

    /** The row menu's "edit" entry. */
    method StartEditing(e: Exercise)
      modifies this`editingExercise
      ensures editingExercise == Some(e)
    {
      editingExercise := Some(e);
    }

    /**
     * Only an entry chosen for editing is updated, under its own id; the
     * choice is cleared afterwards. With nothing chosen the call does nothing.
     */
    method HandleEditExercise(store: DataContext.DataProvider, name: string, muscleGroup: int)
      modifies this`editingExercise, store`serviceCalls, store`actionRefresh
      ensures old(editingExercise).None? ==>
        editingExercise == None && store.serviceCalls == old(store.serviceCalls)
        && store.actionRefresh == old(store.actionRefresh)
      ensures old(editingExercise).Some? ==>
        && store.serviceCalls == old(store.serviceCalls)
             + [UpdateExerciseRequest(old(editingExercise).value.id, name, muscleGroup)]
        && store.actionRefresh == !old(store.actionRefresh)
        && editingExercise == None
    {
      if editingExercise.Some? {
        store.UpdateExercise(editingExercise.value.id, name, muscleGroup);
        editingExercise := None;
      }
    }

    method HandleDeleteExercise(store: DataContext.DataProvider, id: Option<string>)
      modifies store`exercises, store`serviceCalls, store`actionRefresh
      ensures (exists e :: e in old(store.exercises) && e.id == id) ==>
        && store.exercises == DataContext.WithoutExerciseId(old(store.exercises), id)
        && store.serviceCalls == old(store.serviceCalls) + [DeleteExerciseRequest(id)]
        && store.actionRefresh == !old(store.actionRefresh)
      ensures (forall e :: e in old(store.exercises) ==> e.id != id) ==>
        && store.exercises == old(store.exercises) && store.serviceCalls == old(store.serviceCalls)
        && store.actionRefresh == old(store.actionRefresh)
    {
      store.DeleteExercise(id);
    }
  }
}
