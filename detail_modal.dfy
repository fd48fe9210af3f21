/** The detail dialog: how a permission name is split and capitalised, what
    each field row shows, and which of custom content, nothing, or the field
    rows the dialog renders. */
module DetailModal {
  import opened Js
  import GenericList

  /** `w.charAt(0).toUpperCase() + w.slice(1)`. */
  function Capitalize(w: string): (r: string)
    ensures |r| == |w|
    ensures |w| > 0 ==> r[0] == UpperChar(w[0]) && r[1..] == w[1..]
  {
    if w == [] then [] else [UpperChar(w[0])] + w[1..]
  }

  /** The number of occurrences of `c` in `s`. */
  function Count(s: string, c: char): nat
    decreases |s|
  {
    if s == [] then 0 else (if s[0] == c then 1 else 0) + Count(s[1..], c)
  }

  lemma {:induction false} CountAppend(a: string, b: string, c: char)
    ensures Count(a + b, c) == Count(a, c) + Count(b, c)
    decreases |a|
  {
    if a == [] {
      assert a + b == b;
    } else {
      CountAppend(a[1..], b, c);
      assert (a + b)[1..] == a[1..] + b;
    }
  }

  /** Capitalising never adds or removes a hyphen. */
  lemma CapitalizeKeepsHyphens(w: string)
    ensures Count(Capitalize(w), '-') == Count(w, '-')
  {
    if w != [] {
      assert Capitalize(w)[1..] == w[1..];
    }
  }

  /** `s.split("-")`: the pieces between hyphens, one more than there are hyphens. */
  function SplitHyphen(s: string): (parts: seq<string>)
    ensures |parts| == Count(s, '-') + 1
    ensures forall i :: 0 <= i < |parts| ==> '-' !in parts[i]
    decreases |s|
  {
    if s == [] then [""]
    else
      var rest := SplitHyphen(s[1..]);
      if s[0] == '-' then [""] + rest
      else [[s[0]] + rest[0]] + rest[1..]
  }

  /** `parts.join(sep)`. */
  function Join(parts: seq<string>, sep: string): string
    decreases |parts|
  {
    if parts == [] then ""
    else if |parts| == 1 then parts[0]
    else parts[0] + sep + Join(parts[1..], sep)
  }

  /** Splitting on hyphens and joining with a hyphen gives the name back. */
  lemma {:induction false} SplitJoinRoundTrip(s: string)
    ensures Join(SplitHyphen(s), "-") == s
    decreases |s|
  {
    if s != [] {
      var rest := SplitHyphen(s[1..]);
      SplitJoinRoundTrip(s[1..]);
      if s[0] == '-' {
        assert ([""] + rest)[1..] == rest;
        assert s == "-" + s[1..];
      } else if |rest| == 1 {
        assert s == [s[0]] + s[1..];
      } else {
        var parts := [[s[0]] + rest[0]] + rest[1..];
        assert parts[1..] == rest[1..];
        assert Join(rest, "-") == rest[0] + "-" + Join(rest[1..], "-");
        assert s == [s[0]] + s[1..];
      }
    }
  }

  function CapitalizeAll(parts: seq<string>): (r: seq<string>)
    ensures |r| == |parts|
    ensures forall i :: 0 <= i < |parts| ==> r[i] == Capitalize(parts[i])
  {
    seq(|parts|, i requires 0 <= i < |parts| => Capitalize(parts[i]))
  }

  /** The label of one `viewPermissions` entry: every part capitalised, joined by `" - "`. */
  function PermissionLabel(permission: string): string {
    Join(CapitalizeAll(SplitHyphen(permission)), " - ")
  }

  /** Joining hyphen-free parts with `" - "` puts exactly one hyphen between neighbours. */
  lemma {:induction false} JoinedHyphens(parts: seq<string>)
    requires |parts| >= 1
    requires forall i :: 0 <= i < |parts| ==> Count(parts[i], '-') == 0
    ensures Count(Join(parts, " - "), '-') == |parts| - 1
    decreases |parts|
  {
    if |parts| > 1 {
      JoinedHyphens(parts[1..]);
      CountAppend(parts[0] + " - ", Join(parts[1..], " - "), '-');
      CountAppend(parts[0], " - ", '-');
      assert Count(" - ", '-') == 1;
    }
  }

  lemma {:induction false} NoHyphenCountsZero(w: string)
    requires '-' !in w
    ensures Count(w, '-') == 0
    decreases |w|
  {
    if w != [] {
      assert forall k :: 0 <= k < |w[1..]| ==> w[1..][k] == w[k + 1];
      NoHyphenCountsZero(w[1..]);
    }
  }

  /** The label has exactly as many hyphens as the permission name, one per separator. */
  lemma PermissionLabelSeparators(permission: string)
    ensures Count(PermissionLabel(permission), '-') == Count(permission, '-')
  {
    var parts := SplitHyphen(permission);
    var caps := CapitalizeAll(parts);
    forall i | 0 <= i < |caps| ensures Count(caps[i], '-') == 0 {
      NoHyphenCountsZero(parts[i]);
      CapitalizeKeepsHyphens(parts[i]);
    }
    JoinedHyphens(caps);
  }

  /** `displayName` of renderPermissionWithPrivileges: the first part, and
      the second when it is non-empty, each capitalised; later parts dropped. */
  function DisplayName(permission: string): string {
    var parts := SplitHyphen(permission);
    if |parts| > 1 && parts[1] != "" then Capitalize(parts[0]) + " - " + Capitalize(parts[1])
    else Capitalize(parts[0])
  }

  /** A name without a hyphen is shown as itself with its first letter upper-cased. */
  lemma NoHyphenIsCapitalized(permission: string)
    requires '-' !in permission
    ensures SplitHyphen(permission) == [permission]
    ensures DisplayName(permission) == Capitalize(permission)
    ensures PermissionLabel(permission) == Capitalize(permission)
  {
    NoHyphenCountsZero(permission);
    SplitJoinRoundTrip(permission);
  }

  /** For a `module-submodule` name both formattings give `"Module - Submodule"`. */
  lemma TwoPartNames(a: string, b: string)
    requires '-' !in a && '-' !in b && b != ""
    ensures SplitHyphen(a + "-" + b) == [a, b]
    ensures DisplayName(a + "-" + b) == Capitalize(a) + " - " + Capitalize(b)
    ensures PermissionLabel(a + "-" + b) == DisplayName(a + "-" + b)
  {
    SplitOfJoin(a, b);
    var caps := CapitalizeAll([a, b]);
    assert caps == [Capitalize(a), Capitalize(b)];
    assert caps[1..] == [Capitalize(b)];
    assert Join(caps, " - ") == Capitalize(a) + " - " + Capitalize(b);
  }

  lemma {:induction false} SplitOfJoin(a: string, b: string)
    requires '-' !in a && '-' !in b
    ensures SplitHyphen(a + "-" + b) == [a, b]
    decreases |a|
  {
    if a == [] {
      assert a + "-" + b == "-" + b;
      assert ("-" + b)[1..] == b;
      NoHyphenIsSingle(b);
    } else {
      assert (a + "-" + b)[1..] == a[1..] + "-" + b;
      assert forall k :: 0 <= k < |a[1..]| ==> a[1..][k] == a[k + 1];
      SplitOfJoin(a[1..], b);
      assert [a[0]] + a[1..] == a;
    }
  }

  lemma NoHyphenIsSingle(w: string)
    requires '-' !in w
    ensures SplitHyphen(w) == [w]
  {
    NoHyphenCountsZero(w);
    SplitJoinRoundTrip(w);
  }

  // ---------------------------------------------------------------------------
  // Field rows and the dialog

  /** What a field row shows. A permission list shows one label per
      permission and, under each, the same privilege names. */
  datatype Shown =
    | PermissionList(labels: seq<string>, privileges: seq<Value>)
    | Rendered(output: Value)
    | Plain(value: Value)

  /** The labels of a permission array; `split` on a non-string throws. */
  function PermissionLabels(items: seq<Value>): (r: Result<seq<string>>)
    ensures r.Ok? <==> forall i :: 0 <= i < |items| ==> items[i].Str?
    ensures r.Ok? ==> |r.value| == |items|
    ensures r.Ok? ==> forall i :: 0 <= i < |items| ==> r.value[i] == PermissionLabel(items[i].s)
    decreases |items|
  {
    if items == [] then Ok([])
    else if !items[0].Str? then TypeError
    else match PermissionLabels(items[1..])
      case TypeError => TypeError
      case Ok(rest) => Ok([PermissionLabel(items[0].s)] + rest)
  }

  /** `data.privileges && data.privileges.map(priv => priv.nombre_privilegio)`:
      nothing for falsy privileges; a truthy value that is not an array has
      no `map`, and a nullish entry has no field, so both throw. */
  function PrivilegeNames(data: Record): (r: Result<seq<Value>>)
    ensures var p := Get(data, "privileges");
      r.Ok? <==> !Truthy(p) || (p.Arr? && forall i :: 0 <= i < |p.items| ==> !IsNullish(p.items[i]))
    ensures !Truthy(Get(data, "privileges")) ==> r == Ok([])
    ensures var p := Get(data, "privileges");
      r.Ok? && Truthy(p) ==>
        |r.value| == |p.items|
        && forall i :: 0 <= i < |p.items| ==> r.value[i] == Prop(p.items[i], "nombre_privilegio")
  {
    var p := Get(data, "privileges");
    if !Truthy(p) then Ok([])
    else if !p.Arr? then TypeError
    else MapProp(p.items, "nombre_privilegio")
  }

  /** One field row: the permission list for a truthy `viewPermissions`, the
      render callback's output, or the value with `"—"` for a falsy one. The
      privileges are read once per permission, so an empty permission list
      never reads them. */
  function FieldDisplay(field: GenericList.Column, data: Record): (r: Result<Shown>)
    ensures field.id != "viewPermissions" || !Truthy(Get(data, field.id)) ==>
              r == Ok(if field.render.Some? then Rendered(field.render.value(Get(data, field.id), data))
                      else Plain(Or(Get(data, field.id), Str("—"))))
    ensures field.id == "viewPermissions" && Truthy(Get(data, field.id)) ==>
              var v := Get(data, field.id);
              (r.Ok? <==> v.Arr? && (forall i :: 0 <= i < |v.items| ==> v.items[i].Str?)
                          && (v.items == [] || PrivilegeNames(data).Ok?))
              && (r.Ok? ==> r.value.PermissionList? && |r.value.labels| == |v.items|
                            && (forall i :: 0 <= i < |v.items| ==> r.value.labels[i] == PermissionLabel(v.items[i].s))
                            && r.value.privileges == (if v.items == [] then [] else PrivilegeNames(data).value))
    ensures r.Ok? && r.value.Plain? ==> Truthy(r.value.value)
  {
    var v := Get(data, field.id);
    if field.id == "viewPermissions" && Truthy(v) then
      if !v.Arr? then TypeError
      else match PermissionLabels(v.items)
        case TypeError => TypeError
        case Ok(labels) =>
          if labels == [] then Ok(PermissionList([], []))
          else match PrivilegeNames(data)
            case TypeError => TypeError
            case Ok(names) => Ok(PermissionList(labels, names))
    else if field.render.Some? then Ok(Rendered(field.render.value(v, data)))
    else Ok(Plain(Or(v, Str("—"))))
  }

  /** A role with a permission and a `null` privilege throws, while the same
      role with no permission renders an empty list. */
  lemma NullPrivilegeThrows(field: GenericList.Column, name: string)
    requires field.id == "viewPermissions"
    ensures FieldDisplay(field, map["viewPermissions" := Arr([Str(name)]), "privileges" := Arr([Null])]).TypeError?
    ensures FieldDisplay(field, map["viewPermissions" := Arr([]), "privileges" := Arr([Null])])
            == Ok(PermissionList([], []))
  {
    var bad := map["viewPermissions" := Arr([Str(name)]), "privileges" := Arr([Null])];
    assert PrivilegeNames(bad).TypeError?;
  }

  /** What the dialog renders. */
  datatype View =
    | CustomDialog
    | Nothing
    | FieldRows(rows: seq<Result<Shown>>)

  function DetailView(customContent: bool, data: Option<Record>, fields: seq<GenericList.Column>): (v: View)
    ensures customContent ==> v == CustomDialog
    ensures !customContent && data.None? ==> v == Nothing
    ensures !customContent && data.Some? ==> v.FieldRows? && |v.rows| == |fields|
    ensures v.FieldRows? ==> forall i :: 0 <= i < |fields| ==> v.rows[i] == FieldDisplay(fields[i], data.value)
  {
    if customContent then CustomDialog
    else if data.None? then Nothing
    else FieldRows(seq(|fields|, i requires 0 <= i < |fields| => FieldDisplay(fields[i], data.value)))
  }
}
