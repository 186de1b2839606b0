# trackfit-front in Dafny

trackfit-front is a React front end for a fitness tracker. A signed-in user keeps a catalog of exercises, each tagged with a muscle group. The user logs workouts: a date plus an ordered list of exercises, each with an ordered list of sets of weight and repetitions. This project models the part of the front end that holds and rebuilds that data, and proves what it guarantees:

- `workout_form.dfy`: the workout form's draft editor. It adds and removes exercises and adds, removes and updates sets, all without creating duplicate exercises. Its submit handler assembles a workout from the draft.
- `data_context.dfy`: the shared data store (`DataProvider`).
  - It keeps the exercise and workout lists, the `actionRefresh` toggle that triggers a refetch, and the fetch effect.
  - It implements add, update and delete for both lists.
- `workout_order.dfy`: the stable most-recent-first order of workouts, and the per-workout and total set counts.
- `dashboard.dfy`: the dashboard's totals, the latest workout date, the average cell and the two five-item lists. The page sorts the shared workouts array in place; that sort is an array method proved equal to the stable order.
- `workouts_page.dfy`: the workout log page's sorted copy, its cards and its add, edit and delete handlers.
- `exercises_page.dfy`: the catalog page's search filter, then its group filter, plus the reset, edit and delete handlers.
- `exercise_form.dfy`: the exercise form's validation rules, its default values, its muscle-group options and its submit sequence.
- `auth_context.dfy`: the mock session over `user`, `isLoading` and the stored `'user'` value.
- `domain.dfy`, `seqs.dfy` and `text.dfy`: shared modules.
  - `domain.dfy` holds the records of `src/types`.
  - `seqs.dfy` holds `Array.prototype.filter` and its laws.
  - `text.dfy` holds `toString` of a clock reading, `isNaN(Number(key))`, ASCII `toLowerCase` and `includes`.

Modelling conventions:

- Dates are integer timestamps, as `getTime()` compares them.
- The clock (`Date.now()`, `new Date()`) is a `now` parameter, read once per handler: where the code reads it several times in one handler (the id, `createdAt` and `updatedAt` of `addWorkout`), the model gives all of them the same reading. `Date.now().toString()` is `Text.DecimalString(now)`.
- Weights and repetitions are `Option<int>`, because a new set holds `null`.
- The exercise service is opaque. What the code asks of it is appended to a `serviceCalls` log. Whether a call succeeds, and what a fetch returns, are parameters.
- Where the code keeps state in React hooks or context, the model has a class. Its fields are the state variables; its methods are the handlers and setters. The pure array rebuilds the handlers use are functions, and each method's `ensures` ties its new state to those functions.
- The exercise record is the shape the store actually holds, `ExerciseResult`: its id is absent until the backend assigns one. Absent covers both `null` and `undefined` (the store's `addExercise` copies a value whose type omits the id), and both are modelled as `None`, although JavaScript's `===` does not equate them. The record also carries the `muscleGroup` property that the catalog page filters on. The page's add and edit handlers declare it on the data they receive, but neither record type the store holds (`Exercise`, `ExerciseResult`) declares it, so records from the backend leave it undefined.

Some behaviour of the code that a reader may not expect; the model follows the code:

- `removeSet` removes the last set of an exercise too (`WorkoutForm.RemoveOnlySetEmptiesExercise`). Only the form's rendering, which shows the remove button when an exercise has more than one set, keeps exercises non-empty (`WorkoutForm.OfferedRemoveKeepsSets`).
- `deleteExercise` on an unknown id changes nothing and reports nothing. `updateWorkout` and `deleteWorkout` on an unknown id change nothing and still report success (`DataProvider.DeleteExercise`, `DataContext.UpdateUnknownIsNoop`, `DataContext.DeleteUnknownWorkoutIsNoop`).
- The store's `addExercise` neither validates nor assigns an id. It appends the record as given; validation lives in the exercise form.
- The exercise form always asks the service to add an exercise, also when it was opened to edit one.
- The catalog page's "all groups" option carries the value `"Peito"`, and its group filter compares a property that the backend's records do not have.

## Model

| member | source | states |
|---|---|---|
| WorkoutForm.FirstWithId | src/components/workout-form.tsx:91 | `find` stops at the first catalog entry whose id is the selected one. Every entry before it has another id. |
| WorkoutForm.FindById | src/components/workout-form.tsx:91-92 | The lookup is absent exactly when no catalog entry has the id. Otherwise it is the first catalog entry with that id. |
| WorkoutForm.WithExercise | src/components/workout-form.tsx:88-109 | Adding leaves draft and selection unchanged exactly when nothing is selected, the id is not in the catalog, or the draft already has it. Otherwise it appends exactly one entry at the end. That entry copies the id, name, group and description of the catalog entry and holds one empty set, and the selection resets to "". It keeps the draft free of duplicate ids, and afterwards the draft holds the id exactly when it held it before or the add took place. |
| WorkoutForm.WithoutExerciseSpec | src/components/workout-form.tsx:111-113 | After `removeExercise` no entry has the id. The rest is an in-order subsequence of the draft that keeps every entry with another id, as often as the draft held it. An absent id leaves the draft unchanged. |
| WorkoutForm.WithoutExerciseKeepsNoDuplicates | src/components/workout-form.tsx:111-113 | Removing an exercise keeps the draft free of duplicate ids. |
| WorkoutForm.SameEntriesKeepNoDuplicates | src/components/workout-form.tsx:115-154 | A rebuild that changes only set lists keeps the draft free of duplicate ids. |
| WorkoutForm.MapMatching | src/components/workout-form.tsx:116-124 | The `map` over the draft keeps every entry's id and display fields and the order. It rewrites the set list of each matching entry with the given update and returns every other entry unchanged. |
| WorkoutForm.WithSetAdded | src/components/workout-form.tsx:115-125 | `addSet` gives the matching exercise its old sets plus one empty set at the end. Every other entry, every display field and the order are unchanged. |
| WorkoutForm.WithSetRemoved | src/components/workout-form.tsx:127-137 | `removeSet` removes exactly position `setIndex` from the matching exercise's sets. An index out of range leaves them unchanged, and every other entry is untouched. |
| WorkoutForm.WithSetUpdated | src/components/workout-form.tsx:139-154 | `updateSet` changes only the named field of the set at `setIndex` in the matching exercise. Every list length, every other set and the other field are preserved. |
| WorkoutForm.AddSetThenRemoveIt | src/components/workout-form.tsx:115-137 | Removing the set just added restores the draft. |
| WorkoutForm.UpdateSetIdempotent | src/components/workout-form.tsx:139-154 | Writing the same value twice equals writing it once. |
| WorkoutForm.AddExerciseThenRemoveIt | src/components/workout-form.tsx:99-113 | Removing an exercise just added gives back the earlier draft. |
| WorkoutForm.AddExerciseTwice | src/components/workout-form.tsx:94-97 | Adding the same exercise a second time changes nothing, and the draft stays free of duplicate ids. |
| WorkoutForm.OfferedRemoveKeepsSets | src/components/workout-form.tsx:324-329 | Through the remove buttons the form renders (only when an exercise has more than one set), every exercise keeps at least one set. |
| WorkoutForm.RemoveOnlySetEmptiesExercise | src/components/workout-form.tsx:127-137 | `removeSet` itself, called on an exercise's only set, leaves that exercise with no sets. |
| WorkoutForm.AssembleWorkout | src/components/workout-form.tsx:74-80 | The submitted workout has the form's date, exactly the draft as its exercises, and the clock as `updatedAt`. |
| WorkoutForm.AssembleKeepsIdentity | src/components/workout-form.tsx:75-78 | Editing keeps the edited workout's id and `createdAt`. A new workout gets id "" and the clock as `createdAt`. |
| WorkoutForm.WorkoutFormState.constructor | src/components/workout-form.tsx:48-52 | The draft starts as the initial workout's exercises or [], the selection as "", and `isSubmitting` as false. |
| WorkoutForm.WorkoutFormState.Select | src/components/workout-form.tsx:215 | The select's change handler stores the chosen id. |
| WorkoutForm.WorkoutFormState.AddExercise | src/components/workout-form.tsx:88-109 | The state becomes `WithExercise` of the old state, and the no-duplicate invariant is preserved. |
| WorkoutForm.WorkoutFormState.RemoveExercise | src/components/workout-form.tsx:111-113 | The draft becomes `WithoutExercise` of the old draft, and the invariant is preserved. |
| WorkoutForm.WorkoutFormState.AddSet | src/components/workout-form.tsx:115-125 | The draft becomes `WithSetAdded` of the old draft, and the invariant is preserved. |
| WorkoutForm.WorkoutFormState.RemoveSet | src/components/workout-form.tsx:127-137 | The draft becomes `WithSetRemoved` of the old draft, and the invariant is preserved. |
| WorkoutForm.WorkoutFormState.UpdateSet | src/components/workout-form.tsx:139-154 | The draft becomes `WithSetUpdated` of the old draft, and the invariant is preserved. |
| WorkoutForm.WorkoutFormState.HandleSubmit | src/components/workout-form.tsx:61-86 | An empty draft sets the root error and submits nothing. Otherwise the assembled workout is submitted, no root error remains (the form library replaces the errors on each submit), and `isSubmitting` is false afterwards. |
| Seqs.Filter | src/context/DataContext.tsx:89 | `filter` returns no more elements than it was given, and only elements of its input that pass. |
| Seqs.FilterIsSubsequence | src/context/DataContext.tsx:133 | `filter` keeps the input's order. |
| Seqs.FilterCount | src/context/DataContext.tsx:133 | `filter` keeps each passing element as often as the input holds it, and drops every other element. |
| Seqs.FilterFilter | src/pages/Exercises.tsx:92-103 | Two filters in a row keep what one filter on the conjunction keeps. |
| Seqs.WithoutIndex | src/components/workout-form.tsx:132 | `filter((_, index) => index !== k)` removes position k when it exists, and otherwise returns the list unchanged. |
| Text.NumberIsNaN | src/components/exercise-form.tsx:112 | On the keys of a numeric enum, `isNaN(Number(key))` is false for the decimal rendering of a member's value and true for a member's name (a key starting with a non-digit). It is also false for the empty key. |
| Text.Includes | src/pages/Exercises.tsx:94 | `includes` holds for the empty string and for the string itself. It never holds for a longer string. |
| Text.DecimalString | src/context/DataContext.tsx:102 | `Date.now().toString()` is a non-empty string of digits with no leading zero. |
| Text.DecimalRoundTrip | src/context/DataContext.tsx:102 | Reading back the decimal rendering gives the clock reading. |
| Text.DecimalStringInjective | src/context/AuthContext.tsx:76 | Different clock readings give different ids. |
| Text.LowerChar | src/pages/Exercises.tsx:94 | An ASCII capital letter maps to the lower-case letter 32 code points further on. Every other character is kept. |
| Text.Lower | src/pages/Exercises.tsx:94 | `toLowerCase` keeps the length and lowers each ASCII capital letter. |
| Text.LowerIdempotent | src/pages/Exercises.tsx:94 | Lowering twice equals lowering once. |
| WorkoutOrder.Insert | src/pages/Workouts.tsx:95-97 | One insertion step of the stable sort keeps the same workouts plus the inserted one. |
| WorkoutOrder.InsertKeepsSorted | src/pages/Workouts.tsx:95-97 | Inserting into a list sorted most recent first keeps it sorted. |
| WorkoutOrder.SortByDateDesc | src/pages/Workouts.tsx:95-97 | The sort returns a permutation of its input. |
| WorkoutOrder.SortIsSorted | src/pages/Workouts.tsx:95-97 | The sorted list's dates do not increase. |
| WorkoutOrder.InsertStable | src/pages/Workouts.tsx:95-97 | Insertion never moves a workout past one with the same date. |
| WorkoutOrder.SortIsStable | src/pages/Workouts.tsx:95-97 | For every date, the workouts on that date keep their original relative order, as a comparator that returns 0 for them and a stable sort promise. |
| WorkoutOrder.SortOfSortedIsIdentity | src/pages/Dashboard.tsx:38 | Sorting an already sorted list changes nothing. |
| WorkoutOrder.SortIdempotent | src/pages/Dashboard.tsx:38-39 | The dashboard's second sort leaves the first sort's order unchanged. |
| WorkoutOrder.SetCount | src/pages/Workouts.tsx:175 | A workout's set count is 0 when it has no exercises, and no exercise has more sets than the count. |
| WorkoutOrder.TotalSets | src/pages/Dashboard.tsx:31-35 | The dashboard's total is 0 with no workouts, and no workout's set count exceeds it. |
| WorkoutOrder.TotalSetsAppend | src/pages/Dashboard.tsx:31-35 | The total over two lists is the sum of their totals. |
| WorkoutOrder.SetCountAppend | src/pages/Workouts.tsx:175 | A workout's set count is additive over its exercises. |
| WorkoutOrder.SetCountAtLeastExercises | src/pages/Workouts.tsx:174-176 | When every exercise has a set, a card's set count is at least its exercise count. |
| WorkoutOrder.TotalSetsInsert | src/pages/Dashboard.tsx:31-38 | Inserting a workout adds exactly its sets to the total. |
| WorkoutOrder.SortKeepsTotalSets | src/pages/Dashboard.tsx:31-38 | Reordering does not change the total number of sets. |
| Dashboard.SortInPlace | src/pages/Dashboard.tsx:38 | The in-place sort leaves the shared array holding the stable most-recent-first order of its old contents. |
| Dashboard.InsertFrom | src/pages/Dashboard.tsx:38 | One pass of the in-place sort inserts `a[i]` into the sorted suffix after it and leaves the prefix alone. |
| Dashboard.Shift | src/pages/Dashboard.tsx:38 | The shifting loop moves `a[i]` past exactly the later-dated workouts in front of it. |
| Dashboard.InsertAt | src/pages/Dashboard.tsx:38 | Insertion puts a workout right after the prefix of strictly later ones. |
| Dashboard.LatestDate | src/pages/Dashboard.tsx:37-39 | `lastWorkoutDate` is absent exactly when there are no workouts. Otherwise it is the date of some workout and no workout is later. |
| Dashboard.Average | src/pages/Dashboard.tsx:119-121 | The ratio is shown exactly when there is a workout, so its divisor is never 0. Otherwise the cell shows 0. |
| Dashboard.RecentExercises | src/pages/Dashboard.tsx:145 | The recent exercises are the first min(5, n) catalog entries in list order. |
| Dashboard.RecentWorkouts | src/pages/Dashboard.tsx:188-190 | The recent workouts are min(5, n) of the workouts, sorted most recent first. No workout left out is later than one shown. |
| Dashboard.PrefixDominates | src/pages/Dashboard.tsx:189-190 | A prefix of a sorted list is sorted and holds its latest elements. |
| Dashboard.Render | src/pages/Dashboard.tsx:26-39 | Without a user the page renders nothing and leaves the array alone. With a user, the shared array ends up sorted. The view shows the empty state exactly when both lists are empty, plus both counts, the total sets, the latest date, the average and the two recent lists, all as functions of the lists before the render. |
| DataContext.WithoutExerciseId | src/context/DataContext.tsx:89 | Deleting by id keeps, in order, exactly the records with another id, each as often as the list held it. |
| DataContext.Stamped | src/context/DataContext.tsx:99-105 | The stored workout has the given date and exercises, and its id, `createdAt` and `updatedAt` come from the clock. |
| DataContext.Merge | src/context/DataContext.tsx:118 | The spread takes each field the patch supplies and keeps each other field of the workout, and `updatedAt` becomes the clock. |
| DataContext.UpdatedWorkouts | src/context/DataContext.tsx:114-121 | Matching entries take every field the caller passes, keep every other field, and get `updatedAt` = now. All other entries, the length and the order are unchanged. |
| DataContext.UpdateUnknownIsNoop | src/context/DataContext.tsx:114-121 | Updating an id no workout has leaves the list unchanged. |
| DataContext.WithoutWorkoutId | src/context/DataContext.tsx:133 | Deleting keeps, in order, exactly the workouts with another id, each as often as the list held it. |
| DataContext.DeleteUnknownWorkoutIsNoop | src/context/DataContext.tsx:128-133 | Deleting an id no workout has leaves the list unchanged. |
| DataContext.DeleteUndoesAdd | src/context/DataContext.tsx:99-133 | Deleting a just-added workout by its new id gives back the earlier list, provided that id was new. |
| DataContext.AddWorkoutTotalSets | src/context/DataContext.tsx:99-107 | Adding a workout raises the dashboard's set total by exactly its sets. |
| DataContext.DataProvider.constructor | src/context/DataContext.tsx:25-27 | Both lists start empty and the toggle starts false. |
| DataContext.DataProvider.FetchData | src/context/DataContext.tsx:29-56 | With no user both lists become empty. A failed read changes nothing. A null response empties its list, and any other response replaces it. |
| DataContext.DataProvider.AddExercise | src/context/DataContext.tsx:58-69 | The record is appended unchanged, with no id assigned, and the toggle flips. |
| DataContext.DataProvider.UpdateExercise | src/context/DataContext.tsx:71-80 | The local list is not modified. The update is handed to the service and the toggle flips. |
| DataContext.DataProvider.DeleteExercise | src/context/DataContext.tsx:82-97 | A known id removes every record with it, asks the service to delete it and flips the toggle. An unknown id changes nothing: no list change, no service call, no flip. |
| DataContext.DataProvider.AddWorkout | src/context/DataContext.tsx:99-112 | Exactly one stamped workout is appended at the end, and earlier entries are unchanged. |
| DataContext.DataProvider.UpdateWorkout | src/context/DataContext.tsx:114-126 | The list becomes `UpdatedWorkouts` of the old list. |
| DataContext.DataProvider.DeleteWorkout | src/context/DataContext.tsx:128-138 | The list becomes `WithoutWorkoutId` of the old list. |
| WorkoutsPage.SortedWorkouts | src/pages/Workouts.tsx:95-97 | The page's list is a permutation of the workouts, sorted most recent first and stable on equal dates. It is a copy, so the store's list keeps its order. |
| WorkoutsPage.Cards | src/pages/Workouts.tsx:162-176 | One card per workout in sorted order, showing its number of exercises and the sum of its exercises' set counts. |
| WorkoutsPage.CardsCountAllSets | src/pages/Workouts.tsx:174-176 | The cards' set counts add up to the dashboard's total. |
| WorkoutsPage.CardSetsAreTotal | src/pages/Workouts.tsx:174-176 | Cards built from a list count that list's sets. |
| WorkoutsPage.WorkoutsPageState.constructor | src/pages/Workouts.tsx:69-70 | The add dialog is closed and nothing is being edited. |
| WorkoutsPage.WorkoutsPageState.StartEditing | src/pages/Workouts.tsx:187 | The menu's edit entry chooses the workout. |
| WorkoutsPage.WorkoutsPageState.HandleAddWorkout | src/pages/Workouts.tsx:78-81 | The store appends the stamped workout and the dialog closes. |
| WorkoutsPage.WorkoutsPageState.HandleEditWorkout | src/pages/Workouts.tsx:83-88 | Only a chosen workout is updated, under its own id, and the choice is then cleared. With nothing chosen, nothing changes. |
| WorkoutsPage.WorkoutsPageState.HandleDeleteWorkout | src/pages/Workouts.tsx:90-92 | Deletes by id through the store. |
| WorkoutsPage.EditThroughFormKeepsIdentity | src/pages/Workouts.tsx:83-88 | Editing through the dialog keeps every id. Entries under the chosen id take the form's date and exercises, keep the chosen `createdAt`, and get the time of the update. |
| ExercisesPage.NameMatches | src/pages/Exercises.tsx:94 | The empty term matches every name. A term equal to the name up to ASCII case matches. A term longer than the name never matches. |
| ExercisesPage.InGroup | src/pages/Exercises.tsx:101 | Strict equality with the selected string fails for an undefined or numeric `muscleGroup`. It holds only when the property is that string. |
| ExercisesPage.FilteredExercises | src/pages/Exercises.tsx:88-106 | With both filters empty the list is the store's list. An entry is shown exactly when it is in the store's list and passes every active filter: its lowered name contains the lowered term, and its group property equals the selected string. |
| ExercisesPage.FilteredIsOneFilter | src/pages/Exercises.tsx:89-105 | Search and then group filtering keep what one filter on both conditions keeps. |
| ExercisesPage.FilteredIsSubsequence | src/pages/Exercises.tsx:88-105 | The shown list is in catalog order, with each shown entry as often as the catalog holds it. |
| ExercisesPage.SearchIgnoresCase | src/pages/Exercises.tsx:92-96 | A search term and its lower-case form show the same entries. |
| ExercisesPage.GroupFilterHidesUntyped | src/pages/Exercises.tsx:99-103 | A set group filter hides every entry whose `muscleGroup` is not a string, which covers every entry from the backend. |
| ExercisesPage.AllGroupsOptionFiltersByPeito | src/pages/Exercises.tsx:228 | The "Todos os grupos" option filters to entries whose group property is "Peito". It equals search followed by that group filter. |
| ExercisesPage.ExercisesPageState.constructor | src/pages/Exercises.tsx:76-80 | Both filters start empty, and the filtered list starts as the store's list. |
| ExercisesPage.ExercisesPageState.HandleSearch | src/pages/Exercises.tsx:124-126 | The search box stores its value. |
| ExercisesPage.ExercisesPageState.SelectGroup | src/pages/Exercises.tsx:217-218 | The group select stores its value. |
| ExercisesPage.ExercisesPageState.ApplyFilters | src/pages/Exercises.tsx:88-106 | The effect's step-by-step `result` ends as `FilteredExercises`. |
| ExercisesPage.ExercisesPageState.ResetFilters | src/pages/Exercises.tsx:128-131 | Both the search term and the group filter become "". |
| ExercisesPage.ExercisesPageState.StartEditing | src/pages/Exercises.tsx:281 | The menu's edit entry chooses the exercise. |
| ExercisesPage.ExercisesPageState.HandleEditExercise | src/pages/Exercises.tsx:113-118 | With nothing chosen, nothing happens. Otherwise the update goes to the store under the chosen entry's id, and the choice is cleared. |
| ExercisesPage.ExercisesPageState.HandleDeleteExercise | src/pages/Exercises.tsx:120-122 | Deletes through the store. An unknown id changes nothing. |
| ExerciseForm.Validate | src/components/exercise-form.tsx:27-34 | A name shorter than 3 characters is rejected. A missing group is required. A number outside EMuscleGroupType is rejected. The values pass exactly when none of these applies. |
| ExerciseForm.DefaultValues | src/components/exercise-form.tsx:45-51 | The default name is the entry's name or "". The default group is the entry's group, except that an absent group or 0 (Nenhum) gives no group. |
| ExerciseForm.NenhumIsDroppedFromDefaults | src/components/exercise-form.tsx:49 | Editing an entry in group Nenhum opens a form that refuses to submit for lack of a group, although Nenhum itself passes the rule. |
| ExerciseForm.DefaultsOfValidEntryValidate | src/components/exercise-form.tsx:45-51 | Any other valid entry opens a form that validates unchanged. |
| ExerciseForm.EnumKeys | src/components/exercise-form.tsx:111 | The numeric enum's keys are the 12 value strings "0" to "11" in ascending order, followed by the 12 names in declaration order. |
| ExerciseForm.SelectOptions | src/components/exercise-form.tsx:111-120 | The select offers exactly the 12 names, in declaration order, and none of the numeric reverse-mapping keys. |
| ExerciseForm.OptionValue | src/components/exercise-form.tsx:116 | Each option's value is the enum member of its name, which passes the group rule. |
| ExerciseForm.ExerciseFormState.constructor | src/components/exercise-form.tsx:43-51 | The form starts with the default values and is not submitting. |
| ExerciseForm.ExerciseFormState.EditName | src/components/exercise-form.tsx:88 | The name input stores its value. |
| ExerciseForm.ExerciseFormState.ChooseGroup | src/components/exercise-form.tsx:101-104 | Choosing an option stores its enum value. |
| ExerciseForm.ExerciseFormState.Submit | src/components/exercise-form.tsx:53-66 | Invalid values only record errors. Valid values always go to the service as a new exercise, also when editing. The values reach `onSubmit` only if the call succeeds, and `isSubmitting` is false afterwards either way. |
| Auth.LoginOutcome | src/context/AuthContext.tsx:36-51 | Login succeeds exactly for demo@example.com with password "password", and always as user {"1", "Demo User", "demo@example.com"}. Anything else fails with "Credenciais inválidas". |
| Auth.RegisterOutcome | src/context/AuthContext.tsx:71-79 | Registration fails exactly for demo@example.com, with "Este email já está em uso". Otherwise the user has the given name and email and the clock reading as id. |
| Auth.RegisteredIdsDiffer | src/context/AuthContext.tsx:76 | Registrations at different clock readings get different ids. |
| Auth.AuthState.constructor | src/context/AuthContext.tsx:17-18 | Nobody is signed in and loading is under way. |
| Auth.AuthState.RestoreSession | src/context/AuthContext.tsx:20-27 | A stored user becomes the signed-in user, and `isLoading` ends false. |
| Auth.AuthState.Login | src/context/AuthContext.tsx:29-62 | Success stores and sets the same demo user. Failure returns the error and leaves the user and the stored value unchanged. `isLoading` is false either way, and user and stored value stay equal. |
| Auth.AuthState.Register | src/context/AuthContext.tsx:64-97 | Success stores and sets the new user. Rejection leaves both unchanged. `isLoading` is false either way, and user and stored value stay equal. |
| Auth.AuthState.Logout | src/context/AuthContext.tsx:99-106 | Clears both the stored value and the user, so a second call gives the same state. |

## Left out

- Rendering, routing, navigation to `/login`, toasts and framer-motion: presentation with no state the model could check.
- The `setTimeout` delays in the workout form and in login and register, and the ordering of the asynchronous fetch effect. These are timing only. Each handler runs to completion in one method, and the intermediate `isLoading`/`isSubmitting` = true states are set but cannot be observed.
- The HTTP services (`exerciseService`, `workoutService`, `baseService`) are not part of this model. Their calls are logged requests, and their answers are parameters (`FetchData`'s outcome, `Submit`'s success flag). URL shapes and headers are not modelled.
- The local storage entry is an `Option<SessionUser>`. The JSON text itself is not modelled, because `JSON.parse(JSON.stringify(u))` gives back these records.
- Floating point: `parseFloat`/`parseInt` of the set inputs (NaN on empty input) is not modelled; `updateSet` receives an integer. `toFixed(1)` on the average is not modelled; the cell is the pair (sets, workouts).
- Date formatting (date-fns, `toLocaleDateString`) and the date picker's zod rule are not modelled. The workout date is an integer handed to `HandleSubmit`.
- Text.NumberIsNaN: exact only on the key forms a numeric enum has (decimal digits and identifiers). It calls a key NaN whenever it holds a non-digit, so signed ("-1"), padded (" 7"), exponent ("1e3"), hexadecimal ("0x1F") and "Infinity" keys, which `Number` parses, are not modelled.
- Text.Lower: lower-cases ASCII letters only, so letters such as 'Ç' or 'Ã' are kept where `toLowerCase` lowers them, because Unicode case tables are outside the model.
- Text.LowerChar: maps only 'A' to 'Z' to lower case, for the same reason; 'Ç' and 'Ã' are returned unchanged.
- ExerciseForm.Validate: counts characters where zod's `min(3)` counts UTF-16 code units, because strings here are sequences of characters.
- The Exercises page's `handleAddExercise` (src/pages/Exercises.tsx:108-111) is not modelled. The record it appends lacks `muscleGroupType`, which the model's exercise record always has.
- Dashboard.SortInPlace: an insertion sort stands in for the engine's sort algorithm. The comparator and stability fix the result, and the model proves that result, not the engine's sequence of swaps.
- Aliasing: in Dashboard.Render, the array being sorted stands for the store's `workouts`. The model does not tie that array to the `DataProvider` field it aliases.
- `useData`/`useAuth` outside a provider throw. That is a programming error, not behaviour of the core.
