/**
 * The older stand-alone form component (components/TaskForm.tsx). It carries
 * its own copy of the four validators and of the change / blur / submit
 * handlers; on a valid submit it calls `onSubmit` instead of returning the
 * payload. The lemmas at the end show the copy agrees with the hook.
 */
module TaskFormComponent {
  import opened Wrappers
  import opened Text
  import opened Tasks
  import FV = FormValidation

  const MAX_TITLE: nat := 100
  const MAX_DESC: nat := 100

  function ValidateTitle(value: string): (r: Option<string>)
    ensures r.None? <==> Trim(value) != [] && Utf16Length(Trim(value)) <= MAX_TITLE
  {
    var trimmed := Trim(value);
    if trimmed == [] then Some("El título es obligatorio.")
    else if Utf16Length(trimmed) > MAX_TITLE then Some("Máximo 100 caracteres.")
    else None
  }

  function ValidateDescription(value: string): (r: Option<string>)
    ensures r.None? <==> Utf16Length(Trim(value)) <= MAX_DESC
  {
    if Utf16Length(Trim(value)) > MAX_DESC then Some("Máximo 100 caracteres.") else None
  }

  function ValidateDueDate(value: string): (r: Option<string>)
    ensures r.None? <==> value != ""
  {
    if value == "" then Some("La fecha es obligatoria.") else None
  }

  function ValidatePriority(value: string): (r: Option<string>)
    ensures r.None? <==> value != ""
  {
    if value == "" then Some("La prioridad es obligatoria.") else None
  }

  /** `validateField`: the component's local validator table. */
  function ValidateField(field: FV.Field, val: string): (r: Option<string>)
    ensures r.Some? ==> r.value != ""
    ensures val == "" ==> (r.None? <==> field == FV.Description)
  {
    match field
    case Title => ValidateTitle(val)
    case Description => ValidateDescription(val)
    case DueDate => ValidateDueDate(val)
    case Priority => ValidatePriority(val)
  }

  /** The `newErrors` record of the component's `handleSubmit`. */
  function SubmitErrors(v: FV.Values): (e: FV.Errors)
    ensures FV.HasError(e) <==> !FV.AcceptableDraft(v)
  {
    FV.PerField(ValidateTitle(v.title), ValidateDescription(v.description),
                ValidateDueDate(v.dueDate), ValidatePriority(v.priority))
  }

  /** Both copies of every validator give the same message on every input. */
  lemma ValidatorsAgree(field: FV.Field, val: string)
    ensures ValidateField(field, val) == FV.Validate(field, val)
  {
  }

  /** Both copies build the same error record on submit. */
  lemma SubmitErrorsAgree(v: FV.Values)
    ensures SubmitErrors(v) == FV.ValidateAll(v)
  {
  }

  /** What the component's `handleSubmit` passes to `onSubmit`; `None` when it is not called. */
  function Submission(v: FV.Values): (r: Option<FV.TaskPayload>)
    ensures r.Some? <==> FV.AcceptableDraft(v)
    ensures r.Some? ==> r.value.status == Pending && !AllSpace(r.value.title)
  {
    if FV.HasError(SubmitErrors(v)) then None
    else Some(FV.TaskPayload(Trim(v.title), Trim(v.description), v.dueDate, v.priority, Pending))
  }

  /** `TaskForm`: the same three state records as the hook. */
  class TaskForm {
    var values: FV.Values
    var errors: FV.Errors
    var touched: FV.Touched

    constructor ()
      ensures values == FV.INITIAL && errors == FV.EMPTY_ERRORS && touched == FV.UNTOUCHED
    {
      values, errors, touched := FV.INITIAL, FV.EMPTY_ERRORS, FV.UNTOUCHED;
    }

    method HandleChange(field: FV.Field, raw: string)
      modifies this
      ensures values == old(values).Set(field, raw)
      ensures errors == old(errors).Set(field, ValidateField(field, raw))
      ensures touched == old(touched)
    {
      values := values.Set(field, raw);
      errors := errors.Set(field, ValidateField(field, raw));
    }

    method HandleBlur(field: FV.Field)
      modifies this
      ensures touched == old(touched).Set(field, true)
      ensures errors == old(errors).Set(field, ValidateField(field, old(values).Get(field)))
      ensures values == old(values)
    {
      touched := touched.Set(field, true);
      errors := errors.Set(field, ValidateField(field, values.Get(field)));
    }

    /**
     * `handleSubmit`; `submitted` is the argument `onSubmit` is called with,
     * `None` when it is not called.
     */
    method HandleSubmit() returns (submitted: Option<FV.TaskPayload>)
      modifies this
      ensures submitted == Submission(old(values))
      ensures submitted.None? ==> values == old(values) && errors == SubmitErrors(old(values)) && touched == FV.ALL_TOUCHED
      ensures submitted.Some? ==> values == FV.INITIAL && errors == FV.EMPTY_ERRORS && touched == FV.UNTOUCHED
    {
      var draft := values;
      var newErrors := SubmitErrors(draft);
      errors := newErrors;
      touched := FV.ALL_TOUCHED;
      if FV.HasError(newErrors) {
        submitted := None;
        return;
      }
      submitted := Some(FV.TaskPayload(Trim(draft.title), Trim(draft.description), draft.dueDate, draft.priority, Pending));
      values, errors, touched := FV.INITIAL, FV.EMPTY_ERRORS, FV.UNTOUCHED;
    }
  }

  /** The component hands `onSubmit` exactly what the hook's `handleSubmit` returns. */
  lemma SubmitAgreesWithHook(v: FV.Values)
    ensures Submission(v) == FV.SubmitPayload(v)
  {
    SubmitErrorsAgree(v);
  }
}
