/** The edit dialog: it copies its data when opened, and its validation treats
    every falsy value as missing and runs validators on truthy values only. */
module EditModal {
  import opened Js
  import opened Forms

  class EditDialog {
    var formData: Record
    var errors: map<string, Value>

    constructor ()
      ensures formData == map[] && errors == map[]
    {
      formData := map[];
      errors := map[];
    }

    /** The effect on `data` and `open`: only an open dialog with data resets. */
    method Open(open: bool, data: Option<Record>)
      modifies this
      ensures open && data.Some? ==> formData == data.value && errors == map[]
      ensures !(open && data.Some?) ==> formData == old(formData) && errors == old(errors)
    {
      if data.Some? && open {
        formData := data.value;
        errors := map[];
      }
    }

    /** handleChange: sets one field and clears only that field's error. */
    method HandleChange(field: Field, value: Value)
      modifies this
      ensures formData == old(formData)[field.id := value]
      ensures errors == ClearOnChange(old(errors), field.id)
    {
      formData := formData[field.id := value];
      if Truthy(Get(errors, field.id)) {
        errors := errors[field.id := Null];
      }
    }

    /** validateForm: replaces the error map wholesale. */
    method ValidateForm(fields: seq<Field>) returns (isValid: bool)
      modifies this
      ensures errors == ErrorsOf(Falsy, fields, old(formData))
      ensures isValid <==> NoErrors(Falsy, fields, old(formData))
      ensures formData == old(formData)
    {
      var newErrors;
      newErrors, isValid := Validate(Falsy, fields, formData);
      errors := newErrors;
    }

    /** handleSubmit: `onConfirm(formData)` happens iff no field has an error. */
    method HandleSubmit(fields: seq<Field>) returns (confirmed: Option<Record>)
      modifies this
      ensures confirmed.Some? <==> ErrorsOf(Falsy, fields, old(formData)) == map[]
      ensures confirmed.Some? ==> confirmed.value == old(formData)
      ensures errors == ErrorsOf(Falsy, fields, old(formData)) && formData == old(formData)
    {
      ValidIffNoErrorEntries(Falsy, fields, formData);
      var isValid := ValidateForm(fields);
      if isValid {
        confirmed := Some(formData);
      } else {
        confirmed := None;
      }
    }
  }

  /** A required field holding `0`, `false` or `""` fails with the required
      message: the validator never sees a falsy value, so nothing overrides it.
      The create/edit form dialog accepts `0` and `false` for the same field. */
  lemma FalsyValuesFailRequired(f: Field, data: Record)
    requires f.required
    requires Get(data, f.id) in {Num(0), Bool(false), Str("")}
    ensures FieldError(Falsy, f, data) == Some(RequiredMessage(f))
    ensures Get(data, f.id) != Str("") && f.validator.None? ==> FieldError(NullishOrEmpty, f, data).None?
  {
  }

  /** A validator's truthy message overrides the required message, and a
      validator is never consulted on a falsy value. */
  lemma ValidatorOverridesRequired(f: Field, data: Record)
    requires f.validator.Some?
    ensures Truthy(Get(data, f.id)) && Truthy(f.validator.value(Get(data, f.id))) ==>
              FieldError(Falsy, f, data) == Some(f.validator.value(Get(data, f.id)))
    ensures !Truthy(Get(data, f.id)) ==>
              FieldError(Falsy, f, data) == if f.required then Some(RequiredMessage(f)) else None
  {
  }
}
