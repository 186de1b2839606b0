/**
 * The exercise dialog's form (src/components/exercise-form.tsx): its
 * validation rules, its default values, the muscle-group options it offers
 * and the order of events when it is submitted.
 */
module ExerciseForm {
  import opened Domain
  import Seqs
  import Text

  /** The values the form holds; the group is undefined until one is chosen. */
  datatype FormValues = FormValues(name: string, muscleGroup: Option<int>)

  datatype FormError =
    | NameTooShort      // "O nome deve ter pelo menos 3 caracteres."
    | GroupRequired     // "Por favor selecione um grupo muscular."
    | GroupNotInEnum    // a number that is no member of EMuscleGroupType

  const MinNameLength: nat := 3

  /** The schema's rules; the form is submitted only when the list is empty. */
  function Validate(v: FormValues): (errors: seq<FormError>)
    ensures NameTooShort in errors <==> |v.name| < MinNameLength
    ensures GroupRequired in errors <==> v.muscleGroup.None?
    ensures GroupNotInEnum in errors <==> v.muscleGroup.Some? && !IsMuscleGroup(v.muscleGroup.value)
    ensures errors == [] <==> |v.name| >= MinNameLength && v.muscleGroup.Some? && IsMuscleGroup(v.muscleGroup.value)
  {
    (if |v.name| < MinNameLength then [NameTooShort] else [])
    + match v.muscleGroup
      case None => [GroupRequired]
      case Some(g) => if IsMuscleGroup(g) then [] else [GroupNotInEnum]
  }

  /** `Partial<Exercise>`: the entry being edited, or nothing for a new one. */
  datatype ExerciseSeed = ExerciseSeed(name: Option<string>, muscleGroupType: Option<int>)

  const NewExerciseSeed: ExerciseSeed := ExerciseSeed(None, None)

  /**
   * `initialData?.name || ""` and `initialData?.muscleGroupType || undefined`:
   * `||` treats the empty name and the group 0 (Nenhum) as absent.
   */
  function DefaultValues(initial: ExerciseSeed): (v: FormValues)
    ensures v.name == initial.name.GetOr("")
    ensures v.muscleGroup.None? <==> initial.muscleGroupType.None? || initial.muscleGroupType == Some(Nenhum)
    ensures v.muscleGroup.Some? ==> v.muscleGroup == initial.muscleGroupType
  {
    var name := if initial.name.Some? && initial.name.value != "" then initial.name.value else "";
    var group := if initial.muscleGroupType.Some? && initial.muscleGroupType.value != 0 then initial.muscleGroupType else None;
    FormValues(name, group)
  }

  /**
   * Editing an entry whose group is Nenhum opens the form with no group, so
   * submitting it unchanged is refused, although Nenhum itself passes the rule.
   */
  lemma NenhumIsDroppedFromDefaults(name: string)
    ensures GroupRequired in Validate(DefaultValues(ExerciseSeed(Some(name), Some(Nenhum))))
    ensures GroupRequired !in Validate(FormValues(name, Some(Nenhum)))
    ensures GroupNotInEnum !in Validate(FormValues(name, Some(Nenhum)))
  {
  }

  /** Editing keeps every other valid entry's name and group, so it can be submitted unchanged. */
  lemma DefaultsOfValidEntryValidate(name: string, group: int)
    requires |name| >= MinNameLength && IsMuscleGroup(group) && group != Nenhum
    ensures Validate(DefaultValues(ExerciseSeed(Some(name), Some(group)))) == []
  {
  }

  /**
   * `Object.keys(EMuscleGroupType)`: a numeric enum also maps each value back
   * to its name, so its keys are the values' decimal strings, in ascending
   * order, followed by the names in declaration order.
   */
  function EnumKeys(): (keys: seq<string>)
    ensures |keys| == 2 * |MuscleGroupNames|
    ensures forall i :: 0 <= i < |MuscleGroupNames| ==>
      keys[i] == Text.DecimalString(i) && keys[|MuscleGroupNames| + i] == MuscleGroupNames[i]
  {
    NumericKeys() + MuscleGroupNames
  }

  function IsNameKey(): string -> bool {
    (key: string) => Text.NumberIsNaN(key)
  }

  /** `.filter((key) => isNaN(Number(key)))`: the options the group select offers. */
  function SelectOptions(): (options: seq<string>)
    ensures options == MuscleGroupNames
  {
    var numeric := NumericKeys();
    Seqs.FilterAppend(numeric, MuscleGroupNames, IsNameKey());
    NumericKeysAreNumbers();
    Seqs.FilterNone(numeric, IsNameKey());
    NamesAreNotNumbers();
    Seqs.FilterAll(MuscleGroupNames, IsNameKey());
    Seqs.Filter(EnumKeys(), IsNameKey())
  }

  function NumericKeys(): seq<string> {
    seq(|MuscleGroupNames|, i requires 0 <= i => Text.DecimalString(i))
  }

  lemma NumericKeysAreNumbers()
    ensures forall key :: key in NumericKeys() ==> !Text.NumberIsNaN(key)
  {
    forall key | key in NumericKeys() ensures !Text.NumberIsNaN(key) {
      var i :| 0 <= i < |NumericKeys()| && NumericKeys()[i] == key;
      assert key == Text.DecimalString(i);
      assert forall j :: 0 <= j < |key| ==> key[j] in key;
    }
  }

  lemma NamesAreNotNumbers()
    ensures forall key :: key in MuscleGroupNames ==> Text.NumberIsNaN(key)
  {
    forall key | key in MuscleGroupNames ensures Text.NumberIsNaN(key) {
      assert |key| > 0 && !Text.IsDigit(key[0]);
    }
  }

  /**
   * The option labelled with the name at position `i` carries the value
   * `EMuscleGroupType[name]`, which is `i`; choosing it sets a group that
   * passes the schema.
   */
  function OptionValue(i: nat): (g: int)
    requires i < |MuscleGroupNames|
    ensures IsMuscleGroup(g) && MuscleGroupNames[g] == SelectOptions()[i]
  {
    i
  }

  class ExerciseFormState {
    const initialData: ExerciseSeed
    var values: FormValues
    var errors: seq<FormError>
    var isSubmitting: bool
    /** Every request this form hands to the exercise service, oldest first. */
    var serviceCalls: seq<ServiceRequest>

    constructor (initialData: ExerciseSeed)
      ensures this.initialData == initialData
      ensures values == DefaultValues(initialData)
      ensures errors == [] && !isSubmitting && serviceCalls == []
    {
      this.initialData := initialData;
      values := DefaultValues(initialData);
      errors := [];
      isSubmitting := false;
      serviceCalls := [];
    }

    /** The name input's `onChange`. */
    method EditName(name: string)
      modifies this`values
      ensures values == old(values).(name := name)
    {
      values := values.(name := name);
    }

    /** The select's `onValueChange`, which hands the option's value through `Number`. */
    method ChooseGroup(i: nat)
      requires i < |MuscleGroupNames|
      modifies this`values
      ensures values == old(values).(muscleGroup := Some(OptionValue(i)))
    {
      values := values.(muscleGroup := Some(OptionValue(i)));
    }

    /**
     * Submitting: invalid values only record their errors. Valid values are
     * always sent to the service as a new exercise, whether the form was
     * opened to create or to edit; the values reach `onSubmit` only when the
     * service call succeeds, and `isSubmitting` is down again either way.
     */
    method Submit(serviceSucceeds: bool) returns (submitted: Option<FormValues>)
      modifies this`errors, this`isSubmitting, this`serviceCalls
      ensures errors == Validate(values)
      ensures errors != [] ==> submitted == None && serviceCalls == old(serviceCalls) && isSubmitting == old(isSubmitting)
      ensures errors == [] ==>
        && serviceCalls == old(serviceCalls) + [AddExerciseRequest(values.name, values.muscleGroup.value)]
        && submitted == (if serviceSucceeds then Some(values) else None)
        && !isSubmitting
    {
      errors := Validate(values);
      if errors != [] {
        return None;
      }
      isSubmitting := true;
      serviceCalls := serviceCalls + [AddExerciseRequest(values.name, values.muscleGroup.value)];
      submitted := if serviceSucceeds then Some(values) else None;
      isSubmitting := false;
    }
  }
}
