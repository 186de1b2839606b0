/**
 * The fitness tracker's domain records: the muscle-group enumeration, the
 * exercise catalog entry, and a workout with its exercises and sets.
 * Dates are integer timestamps (milliseconds, as `getTime()` returns them).
 */
module Domain {

  datatype Option<+T> = None | Some(value: T) {
    /** `x || d` on a value that is either absent or truthy. */
    function GetOr(default: T): T {
      match this
      case Some(v) => v
      case None => default
    }
  }

  datatype Result<+R, +E> = Ok(value: R) | Err(error: E)

  /**
   * EMuscleGroupType is a numeric enum: each member's value is its position
   * in the declaration, starting with Nenhum = 0.
   */
  const MuscleGroupNames: seq<string> := [
    "Nenhum", "Panturrilha", "Quadríceps", "PosteriorDePerna", "Abdômen", "Costas",
    "Peito", "Trapézio", "Ombro", "Bíceps", "Tríceps", "Antebraço"
  ]

  const Nenhum: int := 0

  predicate IsMuscleGroup(v: int) {
    0 <= v < |MuscleGroupNames|
  }

  /**
   * A property value as the browser sees it when the static type does not
   * describe it: absent, a number, or a string.
   */
  datatype JsValue = Undefined | Num(n: int) | Str(s: string)

  /**
   * A catalog entry as the data context holds it (the ExerciseResult shape):
   * the id is absent (`null` or `undefined`, both None here) until the
   * backend assigns one. `muscleGroup` is the property the Exercises page
   * filters on; the page's handlers declare it on the data they receive, but
   * neither record type the store holds does, so the records the backend
   * returns leave it Undefined.
   */
  datatype Exercise = Exercise(
    id: Option<string>,
    name: string,
    muscleGroupType: int,
    muscleGroupTypeDescription: string,
    muscleGroup: JsValue)

  /** Weight and repetitions start out as `null` in a freshly added set. */
  datatype WorkoutSet = WorkoutSet(weight: Option<int>, reps: Option<int>)

  const EmptySet: WorkoutSet := WorkoutSet(None, None)

  /** An exercise inside a workout: a copy of the catalog entry's display fields and its sets. */
  datatype WorkoutExercise = WorkoutExercise(
    exerciseId: string,
    exerciseName: string,
    muscleGroupType: int,
    muscleGroupTypeDescription: string,
    sets: seq<WorkoutSet>)

  datatype Workout = Workout(
    id: string,
    date: int,
    exercises: seq<WorkoutExercise>,
    createdAt: int,
    updatedAt: int)

  /** Requests handed to the backend's exercise service, whose outcome the model does not see. */
  datatype ServiceRequest =
    | AddExerciseRequest(name: string, muscleGroupType: int)
    | UpdateExerciseRequest(id: Option<string>, name: string, muscleGroup: int)
    | DeleteExerciseRequest(id: Option<string>)
}
