/** The role-assignment dialog: a list of selected role ids and a primary role
    that is `''` (none) or, while the dialog is used as intended, one of the
    selected ids. */
module UserRoleAssignment {
  import opened Js
  import opened Seqs

  /** `roles.map(role => role.id)`: a `null` or `undefined` role is a TypeError. */
  function RoleIds(roles: seq<Value>): (r: Result<seq<Value>>)
    ensures r.Ok? <==> forall i :: 0 <= i < |roles| ==> !IsNullish(roles[i])
    ensures r.Ok? ==> |r.value| == |roles|
    ensures r.Ok? ==> forall i :: 0 <= i < |roles| ==> r.value[i] == Prop(roles[i], "id")
  {
    MapProp(roles, "id")
  }

  /** The empty primary role `''`. */
  const NoPrimary: Value := Str("")

  /** The dialog's invariant: an empty selection, or a primary that is `''`
      or one of the selected ids. */
  ghost predicate PrimaryConsistent(selected: seq<Value>, primary: Value) {
    selected == [] || primary == NoPrimary || primary in selected
  }

  /** The selection after clicking the checkbox of `roleId`. */
  function ToggleSelection(prev: seq<Value>, roleId: Value): seq<Value> {
    if roleId in prev then Filter(prev, (id: Value) => id != roleId) else prev + [roleId]
  }

  /** The primary role after clicking the checkbox of `roleId`. */
  function TogglePrimary(prev: seq<Value>, primary: Value, roleId: Value): Value {
    if roleId in prev then (if primary == roleId then NoPrimary else primary)
    else if |prev| == 0 then roleId
    else primary
  }

  /** Checking an unselected role appends it exactly once; it becomes primary
      iff the selection was empty, otherwise the primary is unchanged. */
  lemma ToggleOnAppends(prev: seq<Value>, primary: Value, roleId: Value)
    requires roleId !in prev
    ensures ToggleSelection(prev, roleId) == prev + [roleId]
    ensures multiset(ToggleSelection(prev, roleId))[roleId] == 1
    ensures TogglePrimary(prev, primary, roleId) == if prev == [] then roleId else primary
  {
    assert multiset(prev)[roleId] == 0;
  }

  /** Unchecking a selected role removes every occurrence of it, keeps the
      other ids in order, and clears the primary iff it was that role. */
  lemma ToggleOffRemoves(prev: seq<Value>, primary: Value, roleId: Value)
    requires roleId in prev
    ensures roleId !in ToggleSelection(prev, roleId)
    ensures forall x :: x != roleId ==> (x in ToggleSelection(prev, roleId) <==> x in prev)
    ensures IsSubsequence(ToggleSelection(prev, roleId), prev)
    ensures TogglePrimary(prev, primary, roleId) == NoPrimary <==> primary == roleId || primary == NoPrimary
    ensures primary != roleId ==> TogglePrimary(prev, primary, roleId) == primary
  {
    var p := (id: Value) => id != roleId;
    FilterMembers(prev, p, roleId);
    forall x | x != roleId
      ensures x in ToggleSelection(prev, roleId) <==> x in prev
    {
      FilterMembers(prev, p, x);
    }
    FilterIsSubsequence(prev, p);
  }

  /** Toggling preserves the invariant. */
  lemma TogglePreservesConsistency(prev: seq<Value>, primary: Value, roleId: Value)
    requires PrimaryConsistent(prev, primary)
    ensures PrimaryConsistent(ToggleSelection(prev, roleId), TogglePrimary(prev, primary, roleId))
  {
    if roleId in prev {
      ToggleOffRemoves(prev, primary, roleId);
    }
  }

  /** A toggle from a primary that is `''` or selected leaves a primary that is
      `''` or selected, also when the last selected role is unchecked. */
  lemma ToggleKeepsPrimarySelected(prev: seq<Value>, primary: Value, roleId: Value)
    requires primary == NoPrimary || primary in prev
    ensures TogglePrimary(prev, primary, roleId) == NoPrimary
         || TogglePrimary(prev, primary, roleId) in ToggleSelection(prev, roleId)
  {
    if roleId in prev {
      ToggleOffRemoves(prev, primary, roleId);
    }
  }

  /** The primary-role select offers the catalogue roles that are selected, in catalogue order. */
  function PrimaryOptions(allRoles: seq<Record>, selected: seq<Value>): (r: seq<Record>)
    ensures |r| <= |allRoles|
    ensures forall i :: 0 <= i < |r| ==> Get(r[i], "id") in selected
  {
    Filter(allRoles, (role: Record) => Get(role, "id") in selected)
  }

  /** Every selected catalogue role is offered as a primary choice. */
  lemma SelectedRolesAreOffered(allRoles: seq<Record>, selected: seq<Value>, role: Record)
    requires role in allRoles && Get(role, "id") in selected
    ensures role in PrimaryOptions(allRoles, selected)
  {
    FilterMembers(allRoles, (role: Record) => Get(role, "id") in selected, role);
  }

  /** The save button's condition, as the dialog writes it. */
  predicate SaveEnabled(selected: seq<Value>, primary: Value) {
    !(|selected| == 0 || (|selected| > 0 && !Truthy(primary)))
  }

  /** Save is enabled iff something is selected and a primary is chosen; an
      enabled save in a consistent state carries a primary among the selection. */
  lemma SaveEnabledMeans(selected: seq<Value>, primary: Value)
    ensures SaveEnabled(selected, primary) <==> |selected| > 0 && Truthy(primary)
    ensures SaveEnabled(selected, primary) && PrimaryConsistent(selected, primary) ==> primary in selected
  {
  }

  /** Whether the effect's `user.roles.map(...)` throws: `roles` is truthy
      but not an array (no `map`), or an array with a nullish entry. */
  predicate OpenThrows(roles: Value) {
    Truthy(roles) && (!roles.Arr? || RoleIds(roles.items).TypeError?)
  }

  /** The record handed to `onSave`. */
  datatype SavePayload = SavePayload(userId: Value, roleIds: seq<Value>, primaryRoleId: Value)

  class RoleAssignmentDialog {
    var user: Option<Record>
    var selectedRoles: seq<Value>
    var primaryRole: Value

    constructor ()
      ensures user == None && selectedRoles == [] && primaryRole == NoPrimary
    {
      user := None;
      selectedRoles := [];
      primaryRole := NoPrimary;
    }

    /** The effect run when `user` or `open` changes. When the effect throws,
        the selection and primary keep their values. */
    method Open(u: Option<Record>) returns (thrown: bool)
      modifies this
      ensures user == u
      ensures thrown <==> u.Some? && OpenThrows(Get(u.value, "roles"))
      ensures thrown ==> selectedRoles == old(selectedRoles) && primaryRole == old(primaryRole)
      ensures (u.None? || !Truthy(Get(u.value, "roles"))) ==>
                selectedRoles == [] && primaryRole == NoPrimary
      ensures !thrown && u.Some? && Truthy(Get(u.value, "roles")) ==>
                var roles := Get(u.value, "roles").items;
                var given := Get(u.value, "primaryRoleId");
                RoleIds(roles).Ok? && selectedRoles == RoleIds(roles).value
                && primaryRole == (if Truthy(given) then given
                                   else if |roles| > 0 then Prop(roles[0], "id")
                                   else old(primaryRole))
    {
      user := u;
      thrown := false;
      if u.Some? && Truthy(Get(u.value, "roles")) {
        var rolesValue := Get(u.value, "roles");
        if !rolesValue.Arr? {
          return true;
        }
        var roles := rolesValue.items;
        var ids := RoleIds(roles);
        if ids.TypeError? {
          return true;
        }
        selectedRoles := ids.value;
        var given := Get(u.value, "primaryRoleId");
        if Truthy(given) {
          primaryRole := given;
        } else if |roles| > 0 {
          primaryRole := Prop(roles[0], "id");
        }
      } else {
        selectedRoles := [];
        primaryRole := NoPrimary;
      }
    }

    /** handleToggleRole. */
    method ToggleRole(roleId: Value)
      modifies this
      ensures selectedRoles == ToggleSelection(old(selectedRoles), roleId)
      ensures primaryRole == TogglePrimary(old(selectedRoles), old(primaryRole), roleId)
      ensures user == old(user)
      ensures PrimaryConsistent(old(selectedRoles), old(primaryRole)) ==>
                PrimaryConsistent(selectedRoles, primaryRole)
    {
      if PrimaryConsistent(selectedRoles, primaryRole) {
        TogglePreservesConsistency(selectedRoles, primaryRole, roleId);
      }
      if roleId in selectedRoles {
        if primaryRole == roleId {
          primaryRole := NoPrimary;
        }
        selectedRoles := Filter(selectedRoles, (id: Value) => id != roleId);
      } else {
        if |selectedRoles| == 0 {
          primaryRole := roleId;
        }
        selectedRoles := selectedRoles + [roleId];
      }
    }

    /** handlePrimaryRoleChange: the select only offers selected roles. */
    method ChangePrimary(value: Value)
      requires value in selectedRoles
      modifies this
      ensures primaryRole == value
      ensures selectedRoles == old(selectedRoles) && user == old(user)
      ensures PrimaryConsistent(selectedRoles, primaryRole)
    {
      primaryRole := value;
    }

    /** handleSave: emits the selection and primary unchanged; reading `user.id`
        with no user is a TypeError. */
    method Save() returns (payload: Result<SavePayload>)
      ensures user.None? ==> payload == TypeError
      ensures user.Some? ==>
                payload == Ok(SavePayload(Get(user.value, "id"), selectedRoles, primaryRole))
    {
      if user.None? {
        return TypeError;
      }
      payload := Ok(SavePayload(Get(user.value, "id"), selectedRoles, primaryRole));
    }
  }

  /** Opening the dialog for a user whose stored primary role is empty or among
      its roles yields a consistent state. */
  lemma OpenFromConsistentUser(roles: seq<Value>, given: Value, stale: Value)
    requires RoleIds(roles).Ok?
    requires !Truthy(given) || given in RoleIds(roles).value
    ensures var selected := RoleIds(roles).value;
            PrimaryConsistent(selected,
              if Truthy(given) then given
              else if |roles| > 0 then Prop(roles[0], "id")
              else stale)
  {
    if !Truthy(given) && |roles| > 0 {
      assert RoleIds(roles).value[0] == Prop(roles[0], "id");
    }
  }

  /** A `null` role makes the effect throw, while a role without `id` only
      contributes an `undefined` id. */
  lemma NullRoleThrows(id: Value)
    ensures RoleIds([Null, Obj(map["id" := id])]).TypeError?
    ensures RoleIds([Obj(map[]), Obj(map["id" := id])]) == Ok([Undefined, id])
    ensures OpenThrows(Arr([Null])) && OpenThrows(Str("admin")) && !OpenThrows(Arr([]))
  {
    var rs := [Obj(map[]), Obj(map["id" := id])];
    assert Prop(rs[0], "id") == Undefined && Prop(rs[1], "id") == id;
    assert RoleIds(rs).value == [Undefined, id];
  }
}
