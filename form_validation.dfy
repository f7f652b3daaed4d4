/**
 * The new-task form's validation rules and its draft state
 * (hooks/useTaskFormValidation.ts): four field validators, a per-field
 * lookup table, and the change / blur / submit handlers over the
 * `values`, `errors` and `touched` records.
 */
module FormValidation {
  import opened Wrappers
  import opened Text
  import opened Tasks

  const MAX_TITLE: nat := 100
  const MAX_DESC: nat := 100

  const TITLE_REQUIRED: string := "El título es obligatorio."
  const TOO_LONG: string := "Máximo 100 caracteres."
  const DATE_REQUIRED: string := "La fecha es obligatoria."
  const PRIORITY_REQUIRED: string := "La prioridad es obligatoria."

  /** `TaskFormField`: the keys of `TaskFormValues`. */
  datatype Field = Title | Description | DueDate | Priority

  /** A record with one entry per form field (`TaskFormValues`, `FieldErrors`, `TouchedFields`). */
  datatype PerField<T> = PerField(title: T, description: T, dueDate: T, priority: T) {

    function Get(f: Field): T {
      match f
      case Title => title
      case Description => description
      case DueDate => dueDate
      case Priority => priority
    }

    /** `{ ...prev, [f]: v }`: one entry replaced, the other three kept. */
    function Set(f: Field, v: T): (r: PerField<T>)
      ensures r.Get(f) == v
      ensures forall g :: g != f ==> r.Get(g) == Get(g)
    {
      match f
      case Title => this.(title := v)
      case Description => this.(description := v)
      case DueDate => this.(dueDate := v)
      case Priority => this.(priority := v)
    }
  }

  /** Field values exactly as typed or selected. */
  type Values = PerField<string>
  /** One error message or `null` per field. */
  type Errors = PerField<Option<string>>
  /** Whether each field has been left (blurred) or submitted. */
  type Touched = PerField<bool>

  const INITIAL: Values := PerField("", "", "", "")
  const EMPTY_ERRORS: Errors := PerField(None, None, None, None)
  const UNTOUCHED: Touched := PerField(false, false, false, false)
  const ALL_TOUCHED: Touched := PerField(true, true, true, true)

  /** `TaskFormValues & { status }`: what a valid submit hands to the page. */
  datatype TaskPayload = TaskPayload(
    title: string,
    description: string,
    dueDate: string,
    priority: string,
    status: TaskStatus)

  /** Title: required after trimming, at most 100 UTF-16 units after trimming. */
  function ValidateTitle(value: string): (r: Option<string>)
    ensures r == Some(TITLE_REQUIRED) <==> AllSpace(value)
    ensures r == Some(TOO_LONG) <==> Utf16Length(Trim(value)) > MAX_TITLE
    ensures r == None <==> !AllSpace(value) && Utf16Length(Trim(value)) <= MAX_TITLE
  {
    var trimmed := Trim(value);
    if trimmed == [] then Some(TITLE_REQUIRED)
    else if Utf16Length(trimmed) > MAX_TITLE then Some(TOO_LONG)
    else None
  }

  /** Description: optional, at most 100 UTF-16 units after trimming. */
  function ValidateDescription(value: string): (r: Option<string>)
    ensures r == None <==> Utf16Length(Trim(value)) <= MAX_DESC
    ensures r != None ==> r == Some(TOO_LONG)
  {
    if Utf16Length(Trim(value)) > MAX_DESC then Some(TOO_LONG) else None
  }

  /** Due date: only emptiness is checked; there is no calendar check and no trim. */
  function ValidateDueDate(value: string): (r: Option<string>)
    ensures r == None <==> value != ""
    ensures r != None ==> r == Some(DATE_REQUIRED)
  {
    if value == "" then Some(DATE_REQUIRED) else None
  }

  /** Priority: only emptiness is checked; the value is not compared with the known levels. */
  function ValidatePriority(value: string): (r: Option<string>)
    ensures r == None <==> value != ""
    ensures r != None ==> r == Some(PRIORITY_REQUIRED)
  {
    if value == "" then Some(PRIORITY_REQUIRED) else None
  }

  /**
   * The `validators` table. Every message is a non-empty string, so truthy;
   * every field but the description is required.
   */
  function Validate(f: Field, raw: string): (r: Option<string>)
    ensures r.Some? ==> r.value != ""
    ensures raw == "" ==> (r.None? <==> f == Description)
  {
    match f
    case Title => ValidateTitle(raw)
    case Description => ValidateDescription(raw)
    case DueDate => ValidateDueDate(raw)
    case Priority => ValidatePriority(raw)
  }

  /** The `newErrors` record `handleSubmit` builds: every validator on its own field. */
  function ValidateAll(v: Values): (e: Errors)
    ensures e.Get(Title) == Validate(Title, v.Get(Title))
    ensures e.Get(Description) == Validate(Description, v.Get(Description))
    ensures e.Get(DueDate) == Validate(DueDate, v.Get(DueDate))
    ensures e.Get(Priority) == Validate(Priority, v.Get(Priority))
  {
    PerField(ValidateTitle(v.title), ValidateDescription(v.description),
             ValidateDueDate(v.dueDate), ValidatePriority(v.priority))
  }

  /** `Object.values(errors).some(Boolean)`: every message is non-empty, so truthy. */
  predicate HasError(e: Errors)
    ensures !HasError(e) <==> e == EMPTY_ERRORS
  {
    e.title.Some? || e.description.Some? || e.dueDate.Some? || e.priority.Some?
  }

  /** The draft a submit accepts, in terms of the fields themselves. */
  predicate AcceptableDraft(v: Values) {
    && !AllSpace(v.title) && Utf16Length(Trim(v.title)) <= MAX_TITLE
    && Utf16Length(Trim(v.description)) <= MAX_DESC
    && v.dueDate != "" && v.priority != ""
  }

  /** What `handleSubmit` returns for the current values: `null`, or the normalised payload. */
  function SubmitPayload(v: Values): (r: Option<TaskPayload>)
    ensures r.Some? <==> AcceptableDraft(v)
    ensures r.Some? <==> !HasError(ValidateAll(v))
    ensures r.Some? ==> r.value == TaskPayload(Trim(v.title), Trim(v.description), v.dueDate, v.priority, Pending)
  {
    if HasError(ValidateAll(v)) then None
    else Some(TaskPayload(Trim(v.title), Trim(v.description), v.dueDate, v.priority, Pending))
  }

  /**
   * A payload satisfies the stored-task rules: a non-empty title of at most 100
   * units with no surrounding white space, and every field valid again if the
   * payload were typed back into the form.
   */
  lemma PayloadIsClean(v: Values)
    requires SubmitPayload(v).Some?
    ensures var p := SubmitPayload(v).value;
      && p.title != [] && Utf16Length(p.title) <= MAX_TITLE && Trim(p.title) == p.title
      && Utf16Length(p.description) <= MAX_DESC && Trim(p.description) == p.description
      && p.status == Pending
      && !HasError(ValidateAll(PerField(p.title, p.description, p.dueDate, p.priority)))
  {
    var t, d := Trim(v.title), Trim(v.description);
    assert SubmitPayload(v).value == TaskPayload(t, d, v.dueDate, v.priority, Pending);
    TrimIdempotent(v.title);
    TrimIdempotent(v.description);
    assert t != [];
    assert !AllSpace(t);
    assert ValidateTitle(t) == None;
    assert ValidateDescription(d) == None;
  }

  /** A blank title is reported as required and blocks the submit, whatever the other fields say. */
  lemma BlankTitleBlocksSubmit(v: Values)
    requires AllSpace(v.title)
    ensures ValidateAll(v).title == Some(TITLE_REQUIRED)
    ensures SubmitPayload(v) == None
  {
  }

  /** The freshly reset form cannot be submitted again: all required fields are empty. */
  lemma InitialDraftIsInvalid()
    ensures ValidateAll(INITIAL) == PerField(Some(TITLE_REQUIRED), None, Some(DATE_REQUIRED), Some(PRIORITY_REQUIRED))
    ensures SubmitPayload(INITIAL) == None
  {
    assert AllSpace(INITIAL.title);
  }

  /** White space before or after the title changes neither its verdict nor the stored title. */
  lemma TitlePaddingIsIgnored(pad1: string, title: string, pad2: string)
    requires AllSpace(pad1) && AllSpace(pad2)
    ensures ValidateTitle(pad1 + title + pad2) == ValidateTitle(title)
  {
    TrimIgnoresPadding(pad1, title, pad2);
  }

  /** Any non-empty string passes as a priority, including one that names no level. */
  lemma PriorityIsNotEnumChecked()
    ensures ValidatePriority("urgent") == None
    ensures forall p: TaskPriority :: ValidatePriority(p.Code()) == None
  {
  }

  /**
   * `useTaskFormValidation`: the three state records of the hook and its
   * handlers. React's functional updates are applied in order, so each
   * handler is one atomic state transition here.
   */
  class TaskFormHook {
    var values: Values
    var errors: Errors
    var touched: Touched

    constructor ()
      ensures values == INITIAL && errors == EMPTY_ERRORS && touched == UNTOUCHED
    {
      values, errors, touched := INITIAL, EMPTY_ERRORS, UNTOUCHED;
    }

    /** `handleChange(field)` with the input's new raw value. */
    method HandleChange(field: Field, raw: string)
      modifies this
      ensures values == old(values).Set(field, raw)
      ensures errors == old(errors).Set(field, Validate(field, raw))
      ensures touched == old(touched)
    {
      values := values.Set(field, raw);
      errors := errors.Set(field, Validate(field, raw));
    }

    /** `handleBlur(field)`: mark the field touched and re-check its current value. */
    method HandleBlur(field: Field)
      modifies this
      ensures touched == old(touched).Set(field, true)
      ensures errors == old(errors).Set(field, Validate(field, old(values).Get(field)))
      ensures values == old(values)
    {
      touched := touched.Set(field, true);
      errors := errors.Set(field, Validate(field, values.Get(field)));
    }

    /**
     * `handleSubmit`: on errors show all of them and keep the draft; otherwise
     * return the normalised payload and reset the form.
     */
    method HandleSubmit() returns (payload: Option<TaskPayload>)
      modifies this
      ensures payload == SubmitPayload(old(values))
      ensures payload.None? ==> values == old(values) && errors == ValidateAll(old(values)) && touched == ALL_TOUCHED
      ensures payload.Some? ==> values == INITIAL && errors == EMPTY_ERRORS && touched == UNTOUCHED
    {
      var newErrors := PerField(ValidateTitle(values.title), ValidateDescription(values.description),
                                ValidateDueDate(values.dueDate), ValidatePriority(values.priority));
      errors := newErrors;
      touched := ALL_TOUCHED;
      if HasError(newErrors) {
        payload := None;
        return;
      }
      payload := Some(TaskPayload(Trim(values.title), Trim(values.description), values.dueDate, values.priority, Pending));
      values, errors, touched := INITIAL, EMPTY_ERRORS, UNTOUCHED;
    }
  }
}
