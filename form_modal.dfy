/** The create/edit form dialog: its open-time initialisation, field edits,
    validation ("missing" means `undefined`, `null` or `""`), submission and
    the grouping of fields into sections. */
module FormModal {
  import opened Js
  import opened Seqs
  import opened Forms

  /** `field.defaultValue || ""`. */
  function DefaultOf(f: Field): (v: Value)
    ensures Truthy(f.defaultValue) ==> v == f.defaultValue
    ensures !Truthy(f.defaultValue) ==> v == Str("")
  {
    Or(f.defaultValue, Str(""))
  }

  /** `defaultData` after the `forEach` over `fields`. */
  function DefaultsOf(fields: seq<Field>): map<string, Value>
    decreases |fields|
  {
    if fields == [] then map[]
    else
      var last := fields[|fields| - 1];
      DefaultsOf(fields[..|fields| - 1])[last.id := DefaultOf(last)]
  }

  /** The default record has one entry per field id, and with distinct ids
      each entry is that field's default. */
  lemma {:induction false} DefaultsOfEntries(fields: seq<Field>)
    ensures DefaultsOf(fields).Keys == set i | 0 <= i < |fields| :: fields[i].id
    ensures DistinctIds(fields) ==>
              forall i :: 0 <= i < |fields| ==> DefaultsOf(fields)[fields[i].id] == DefaultOf(fields[i])
    decreases |fields|
  {
    if fields != [] {
      var init := fields[..|fields| - 1];
      DefaultsOfEntries(init);
      assert forall i :: 0 <= i < |init| ==> init[i] == fields[i];
      assert (set i | 0 <= i < |fields| :: fields[i].id)
          == (set i | 0 <= i < |init| :: init[i].id) + {fields[|fields| - 1].id};
    }
  }

  /** The loop that builds `defaultData`. */
  method DefaultData(fields: seq<Field>) returns (defaultData: map<string, Value>)
    ensures defaultData == DefaultsOf(fields)
  {
    defaultData := map[];
    for i := 0 to |fields|
      invariant defaultData == DefaultsOf(fields[..i])
    {
      defaultData := defaultData[fields[i].id := DefaultOf(fields[i])];
      assert fields[..i + 1][..i] == fields[..i];
    }
    assert fields[..|fields|] == fields;
  }

  /** `field.section || "default"`. */
  function SectionOf(f: Field): (s: string)
    ensures s != ""
    ensures f.section != "" ==> s == f.section
  {
    if f.section == "" then "default" else f.section
  }

  function SectionsOf(fields: seq<Field>): set<string> {
    set i | 0 <= i < |fields| :: SectionOf(fields[i])
  }

  /** The fields of one section, in form order. */
  function InSection(fields: seq<Field>, s: string): seq<Field> {
    Filter(fields, (f: Field) => SectionOf(f) == s)
  }

  /** groupedFields: one entry per section used, holding its fields in order. */
  ghost function GroupsOf(fields: seq<Field>): map<string, seq<Field>> {
    map s | s in SectionsOf(fields) :: InSection(fields, s)
  }

  /** The `reduce` that pushes each field onto its section's list. */
  method GroupFields(fields: seq<Field>) returns (groups: map<string, seq<Field>>)
    ensures groups.Keys == SectionsOf(fields)
    ensures forall s :: s in groups ==> groups[s] == InSection(fields, s)
  {
    groups := map[];
    for i := 0 to |fields|
      invariant groups.Keys == SectionsOf(fields[..i])
      invariant forall s :: s in groups ==> groups[s] == InSection(fields[..i], s)
    {
      var field := fields[i];
      var section := SectionOf(field);
      ghost var before := groups;
      assert fields[..i + 1] == fields[..i] + [field];
      if section !in groups {
        groups := groups[section := []];
      }
      groups := groups[section := groups[section] + [field]];
      GroupStep(fields[..i], field, before);
    }
    assert fields[..|fields|] == fields;
  }

  /** Pushing one more field onto its section's list keeps the groups
      equal to the sections' fields. */
  lemma GroupStep(prefix: seq<Field>, field: Field, groups: map<string, seq<Field>>)
    requires groups.Keys == SectionsOf(prefix)
    requires forall s :: s in groups ==> groups[s] == InSection(prefix, s)
    ensures var section := SectionOf(field);
            var next := groups[section := (if section in groups then groups[section] else []) + [field]];
            next.Keys == SectionsOf(prefix + [field])
            && forall s :: s in next ==> next[s] == InSection(prefix + [field], s)
  {
    var section := SectionOf(field);
    var next := groups[section := (if section in groups then groups[section] else []) + [field]];
    forall s | s in next
      ensures next[s] == InSection(prefix + [field], s)
    {
      FilterAppendOne(prefix, field, (f: Field) => SectionOf(f) == s);
      if s == section && section !in SectionsOf(prefix) {
        NoneInSection(prefix, s);
      }
    }
    var all := prefix + [field];
    forall t | t in SectionsOf(all) ensures t in SectionsOf(prefix) + {section} {
      var j :| 0 <= j < |all| && SectionOf(all[j]) == t;
      if j < |prefix| { assert all[j] == prefix[j]; }
    }
    forall t | t in SectionsOf(prefix) ensures t in SectionsOf(all) {
      var j :| 0 <= j < |prefix| && SectionOf(prefix[j]) == t;
      assert all[j] == prefix[j];
    }
    assert SectionOf(all[|prefix|]) == section;
  }

  /** A section none of the fields uses has no fields. */
  lemma {:induction false} NoneInSection(fields: seq<Field>, s: string)
    requires s !in SectionsOf(fields)
    ensures InSection(fields, s) == []
    decreases |fields|
  {
    if fields != [] {
      assert SectionOf(fields[0]) != s;
      assert SectionsOf(fields[1..]) <= SectionsOf(fields) by {
        forall t | t in SectionsOf(fields[1..]) ensures t in SectionsOf(fields) {
          var j :| 0 <= j < |fields[1..]| && SectionOf(fields[1..][j]) == t;
          assert fields[j + 1] == fields[1..][j];
        }
      }
      NoneInSection(fields[1..], s);
    }
  }

  /** Every field lands in the group of its own section and in no other,
      and each group keeps the fields' relative order. */
  lemma FieldInExactlyOneGroup(fields: seq<Field>, i: int)
    requires 0 <= i < |fields|
    ensures SectionOf(fields[i]) in GroupsOf(fields)
    ensures fields[i] in GroupsOf(fields)[SectionOf(fields[i])]
    ensures forall s :: s in GroupsOf(fields) && s != SectionOf(fields[i]) ==> fields[i] !in GroupsOf(fields)[s]
    ensures forall s :: s in GroupsOf(fields) ==> IsSubsequence(GroupsOf(fields)[s], fields)
  {
    var f := fields[i];
    FilterMembers(fields, (g: Field) => SectionOf(g) == SectionOf(f), f);
    forall s | s in GroupsOf(fields) && s != SectionOf(f)
      ensures f !in GroupsOf(fields)[s]
    {
      FilterMembers(fields, (g: Field) => SectionOf(g) == s, f);
    }
    forall s | s in GroupsOf(fields)
      ensures IsSubsequence(GroupsOf(fields)[s], fields)
    {
      FilterIsSubsequence(fields, (g: Field) => SectionOf(g) == s);
    }
  }

  class FormDialog {
    var formData: Record
    var errors: map<string, Value>

    constructor ()
      ensures formData == map[] && errors == map[]
    {
      formData := map[];
      errors := map[];
    }

    /** The effect run when the dialog opens: a copy of the initial data, or
        each field's default; errors cleared. Closed, nothing changes. */
    method Open(open: bool, initialData: Option<Record>, fields: seq<Field>)
      modifies this
      ensures open && initialData.Some? ==> formData == initialData.value && errors == map[]
      ensures open && initialData.None? ==> formData == DefaultsOf(fields) && errors == map[]
      ensures !open ==> formData == old(formData) && errors == old(errors)
    {
      if open {
        if initialData.Some? {
          formData := initialData.value;
        } else {
          formData := DefaultData(fields);
        }
        errors := map[];
      }
    }

    /** handleChange: sets one field and clears that field's error if it had one. */
    method HandleChange(field: string, value: Value)
      modifies this
      ensures formData == old(formData)[field := value]
      ensures errors == ClearOnChange(old(errors), field)
    {
      formData := formData[field := value];
      if Truthy(Get(errors, field)) {
        errors := errors[field := Null];
      }
    }

    /** validateForm: replaces the error map wholesale. */
    method ValidateForm(fields: seq<Field>) returns (isValid: bool)
      modifies this
      ensures errors == ErrorsOf(NullishOrEmpty, fields, old(formData))
      ensures isValid <==> NoErrors(NullishOrEmpty, fields, old(formData))
      ensures formData == old(formData)
    {
      var newErrors;
      newErrors, isValid := Validate(NullishOrEmpty, fields, formData);
      errors := newErrors;
    }

    /** handleSubmit: `onSubmit(formData)` happens iff validation passes. */
    method HandleSubmit(fields: seq<Field>) returns (submitted: Option<Record>)
      modifies this
      ensures submitted.Some? <==> NoErrors(NullishOrEmpty, fields, old(formData))
      ensures submitted.Some? ==> submitted.value == old(formData)
      ensures errors == ErrorsOf(NullishOrEmpty, fields, old(formData)) && formData == old(formData)
    {
      var isValid := ValidateForm(fields);
      if isValid {
        submitted := Some(formData);
      } else {
        submitted := None;
      }
    }
  }

  /** A required field left `undefined`, `null` or `""` fails with the
      required message unless its validator's own message overrides it; `0`
      and `false` count as present. */
  lemma MissingMeansNullishOrEmpty(f: Field, data: Record)
    requires f.required && f.validator.None?
    ensures FieldError(NullishOrEmpty, f, data).Some? <==>
              Get(data, f.id) in {Undefined, Null, Str("")}
    ensures Get(data, f.id) in {Num(0), Bool(false)} ==> FieldError(NullishOrEmpty, f, data).None?
  {
  }
}
