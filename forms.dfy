/** What the two form dialogs share: the field description, the per-field
    error rule and the `forEach` that collects the errors of a whole form.
    The dialogs differ only in what counts as a missing value and when a
    field's validator runs, which `Notion` selects. */
module Forms {
  import opened Js

  /** A form field as the dialogs receive it. `section` is `""` when absent. */
  datatype Field = Field(id: string, caption: string, required: bool,
                         validator: Option<Value -> Value>, defaultValue: Value,
                         section: string)

  /** `NullishOrEmpty`: the create/edit form dialog; `Falsy`: the edit dialog. */
  datatype Notion = NullishOrEmpty | Falsy

  /** The value counts as absent for a required field. */
  predicate Missing(notion: Notion, v: Value) {
    match notion
    case NullishOrEmpty => v == Undefined || v == Null || v == Str("")
    case Falsy => !Truthy(v)
  }

  /** The field's validator is consulted for this value. */
  predicate ValidatorRuns(notion: Notion, v: Value) {
    match notion
    case NullishOrEmpty => !IsNullish(v)
    case Falsy => Truthy(v)
  }

  function RequiredMessage(f: Field): Value {
    Str(f.caption + " es requerido")
  }

  /** The field has a validator, it runs on the current value and returns a truthy message. */
  predicate ValidatorFails(notion: Notion, f: Field, data: Record) {
    f.validator.Some? && ValidatorRuns(notion, Get(data, f.id))
    && Truthy(f.validator.value(Get(data, f.id)))
  }

  /** The error one field contributes: the validator's message overrides the
      required message. */
  function FieldError(notion: Notion, f: Field, data: Record): (e: Option<Value>)
    ensures e.Some? <==> (f.required && Missing(notion, Get(data, f.id))) || ValidatorFails(notion, f, data)
    ensures ValidatorFails(notion, f, data) ==> e == Some(f.validator.value(Get(data, f.id)))
    ensures !ValidatorFails(notion, f, data) && e.Some? ==> e == Some(RequiredMessage(f))
  {
    var v := Get(data, f.id);
    if f.validator.Some? && ValidatorRuns(notion, v) && Truthy(f.validator.value(v)) then
      Some(f.validator.value(v))
    else if f.required && Missing(notion, v) then
      Some(RequiredMessage(f))
    else
      None
  }

  /** `newErrors` after the `forEach` over `fields`, in field order. */
  function ErrorsOf(notion: Notion, fields: seq<Field>, data: Record): map<string, Value>
    decreases |fields|
  {
    if fields == [] then map[]
    else
      var last := fields[|fields| - 1];
      var prev := ErrorsOf(notion, fields[..|fields| - 1], data);
      match FieldError(notion, last, data)
      case Some(e) => prev[last.id := e]
      case None => prev
  }

  /** No field produces an error. */
  predicate NoErrors(notion: Notion, fields: seq<Field>, data: Record) {
    forall i :: 0 <= i < |fields| ==> FieldError(notion, fields[i], data).None?
  }

  ghost predicate DistinctIds(fields: seq<Field>) {
    forall i, j :: 0 <= i < j < |fields| ==> fields[i].id != fields[j].id
  }

  /** A key carries an error iff some field with that id produced one. */
  lemma {:induction false} ErrorKeys(notion: Notion, fields: seq<Field>, data: Record, k: string)
    ensures k in ErrorsOf(notion, fields, data) <==>
              exists i :: 0 <= i < |fields| && fields[i].id == k && FieldError(notion, fields[i], data).Some?
    decreases |fields|
  {
    if fields != [] {
      var init := fields[..|fields| - 1];
      ErrorKeys(notion, init, data, k);
      assert forall i :: 0 <= i < |init| ==> init[i] == fields[i];
      if k in ErrorsOf(notion, fields, data) && k !in ErrorsOf(notion, init, data) {
        assert fields[|fields| - 1].id == k;
      }
    }
  }

  /** With distinct ids, each field's entry is exactly its own error. */
  lemma {:induction false} ErrorOfField(notion: Notion, fields: seq<Field>, data: Record, i: int)
    requires DistinctIds(fields) && 0 <= i < |fields|
    ensures FieldError(notion, fields[i], data).Some? ==>
              fields[i].id in ErrorsOf(notion, fields, data)
              && ErrorsOf(notion, fields, data)[fields[i].id] == FieldError(notion, fields[i], data).value
    ensures FieldError(notion, fields[i], data).None? ==> fields[i].id !in ErrorsOf(notion, fields, data)
    decreases |fields|
  {
    var init := fields[..|fields| - 1];
    if i < |fields| - 1 {
      ErrorOfField(notion, init, data, i);
      assert fields[i] == init[i];
      assert fields[|fields| - 1].id != fields[i].id;
    } else if FieldError(notion, fields[i], data).None? {
      ErrorKeys(notion, init, data, fields[i].id);
      forall j | 0 <= j < |init| ensures init[j].id != fields[i].id {
        assert init[j] == fields[j];
      }
    }
  }

  /** A required field without validator whose value is missing is reported
      under its id with the required message. */
  lemma RequiredMissingReported(notion: Notion, fields: seq<Field>, data: Record, i: int)
    requires DistinctIds(fields) && 0 <= i < |fields|
    requires fields[i].required && fields[i].validator.None? && Missing(notion, Get(data, fields[i].id))
    ensures fields[i].id in ErrorsOf(notion, fields, data)
    ensures ErrorsOf(notion, fields, data)[fields[i].id] == RequiredMessage(fields[i])
  {
    ErrorOfField(notion, fields, data, i);
  }

  /** The form is valid iff the collected error map is empty. */
  lemma ValidIffNoErrorEntries(notion: Notion, fields: seq<Field>, data: Record)
    ensures NoErrors(notion, fields, data) <==> ErrorsOf(notion, fields, data) == map[]
  {
    if !NoErrors(notion, fields, data) {
      var i :| 0 <= i < |fields| && FieldError(notion, fields[i], data).Some?;
      ErrorKeys(notion, fields, data, fields[i].id);
    } else if ErrorsOf(notion, fields, data) != map[] {
      var k :| k in ErrorsOf(notion, fields, data);
      ErrorKeys(notion, fields, data, k);
    }
  }

  /** validateForm: the `forEach` that fills `newErrors` and clears `isValid`. */
  method Validate(notion: Notion, fields: seq<Field>, data: Record)
    returns (newErrors: map<string, Value>, isValid: bool)
    ensures newErrors == ErrorsOf(notion, fields, data)
    ensures isValid <==> NoErrors(notion, fields, data)
  {
    newErrors := map[];
    isValid := true;
    for i := 0 to |fields|
      invariant newErrors == ErrorsOf(notion, fields[..i], data)
      invariant isValid <==> forall j :: 0 <= j < i ==> FieldError(notion, fields[j], data).None?
    {
      var field := fields[i];
      var v := Get(data, field.id);
      if field.required && Missing(notion, v) {
        newErrors := newErrors[field.id := RequiredMessage(field)];
        isValid := false;
      }
      if field.validator.Some? && ValidatorRuns(notion, v) {
        var validationError := field.validator.value(v);
        if Truthy(validationError) {
          newErrors := newErrors[field.id := validationError];
          isValid := false;
        }
      }
      assert fields[..i + 1][..i] == fields[..i];
    }
    assert fields[..|fields|] == fields;
  }

  /** The error map after editing field `id`: a truthy error becomes `null`. */
  function ClearOnChange(errors: map<string, Value>, id: string): (r: map<string, Value>)
    ensures !Truthy(Get(r, id))
    ensures forall k :: k != id ==> Get(r, k) == Get(errors, k)
    ensures Truthy(Get(errors, id)) ==> r == errors[id := Null]
    ensures !Truthy(Get(errors, id)) ==> r == errors
  {
    if Truthy(Get(errors, id)) then errors[id := Null] else errors
  }
}
