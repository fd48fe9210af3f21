/** The role administration screen: the list of roles, the privilege
    catalogue, the dialogs' flags and the handlers that rewrite the list. */
module Roles {
  import opened Js
  import opened RecordLists
  import opened Forms
  import FormModal

  function Privilege(id: int, nombre: string): Record {
    map["id" := Num(id), "nombre_privilegio" := Str(nombre)]
  }

  /** The privilege catalogue the screen starts with. */
  function PrivilegesCatalogue(): seq<Record> {
    [Privilege(1, "Crear"), Privilege(2, "Ver"), Privilege(3, "Editar"), Privilege(4, "Eliminar")]
  }

  function PrivilegeRef(id: int, nombre: string): Value {
    Obj(Privilege(id, nombre))
  }

  function InitialRole(id: int, nombre: string, descripcion: string, privileges: seq<Value>): Record {
    map["id" := Num(id), "nombre" := Str(nombre), "descripcion" := Str(descripcion),
        "fecha" := Str("5/11/2024"), "estado" := Bool(true), "privileges" := Arr(privileges)]
  }

  function InitialRoles(): seq<Record> {
    [InitialRole(1, "Administrador", "Control total del sistema",
                 [PrivilegeRef(1, "Crear"), PrivilegeRef(2, "Ver"), PrivilegeRef(3, "Editar"), PrivilegeRef(4, "Eliminar")]),
     InitialRole(2, "Secretario", "Gestión administrativa", [PrivilegeRef(1, "Crear"), PrivilegeRef(2, "Ver")]),
     InitialRole(3, "Profesor", "Gestión de cursos y estudiantes", [PrivilegeRef(2, "Ver"), PrivilegeRef(3, "Editar")]),
     InitialRole(4, "Estudiantes", "Acceso limitado para estudiantes", [PrivilegeRef(2, "Ver")])]
  }

  /** The edited role: the form data, with the old record's id, creation date
      and privileges (or `[]`). */
  function EditedRole(formData: Record, item: Record): (r: Record)
    ensures IdOf(r) == IdOf(item)
    ensures Get(r, "fecha") == Get(item, "fecha")
    ensures Get(r, "privileges") == Or(Get(item, "privileges"), Arr([]))
    ensures forall k :: k !in {"id", "fecha", "privileges"} ==> Get(r, k) == Get(formData, k)
  {
    formData + map["id" := IdOf(item), "fecha" := Get(item, "fecha"),
                   "privileges" := Or(Get(item, "privileges"), Arr([]))]
  }

  /** The created role: the form data with the new id, today's date and no privileges. */
  function NewRole(formData: Record, newId: int, today: string): (r: Record)
    ensures IdOf(r) == Num(newId) && Get(r, "fecha") == Str(today) && Get(r, "privileges") == Arr([])
    ensures forall k :: k !in {"id", "fecha", "privileges"} ==> Get(r, k) == Get(formData, k)
  {
    formData + map["id" := Num(newId), "fecha" := Str(today), "privileges" := Arr([])]
  }

  /** The role after a privilege save: the catalogue entries whose id was chosen. */
  function WithPrivileges(role: Record, catalogue: seq<Record>, privilegeIds: seq<Value>): (r: Record)
    ensures IdOf(r) == IdOf(role)
    ensures Get(r, "privileges") == Objects(FromCatalogue(catalogue, privilegeIds))
    ensures forall k :: k != "privileges" ==> Get(r, k) == Get(role, k)
  {
    role["privileges" := Objects(FromCatalogue(catalogue, privilegeIds))]
  }

  function PrivilegesUpdate(catalogue: seq<Record>, privilegeIds: seq<Value>): Record -> Record {
    (role: Record) => WithPrivileges(role, catalogue, privilegeIds)
  }

  /** What the privilege dialog hands back. */
  datatype PrivilegePayload = PrivilegePayload(roleId: Value, privilegeIds: seq<Value>)

  // ---------------------------------------------------------------------------
  // The role form

  function RoleFields(): seq<Field> {
    [Field("nombre", "Nombre", true, None, Undefined, ""),
     Field("descripcion", "Descripción", true, None, Undefined, ""),
     Field("estado", "Estado", false, None, Bool(true), "")]
  }

  function RoleDefaults(): Record {
    map["nombre" := Str(""), "descripcion" := Str(""), "estado" := Bool(true)]
  }

  /** A new role's form starts with empty text and `estado` true. */
  lemma RoleFormDefaults()
    ensures FormModal.DefaultsOf(RoleFields()) == RoleDefaults()
  {
    var fs := RoleFields();
    assert fs[..1][..0] == [];
    assert fs[..2][..1] == fs[..1];
    assert fs[..2] == fs[..|fs| - 1];
    assert FormModal.DefaultsOf(fs[..1]) == map["nombre" := Str("")];
    assert FormModal.DefaultsOf(fs[..2]) == map["nombre" := Str(""), "descripcion" := Str("")];
  }

  /** Submitting the untouched default form reports exactly the two required fields. */
  lemma RoleFormRequired()
    ensures ErrorsOf(NullishOrEmpty, RoleFields(), RoleDefaults()) ==
              map["nombre" := Str("Nombre es requerido"), "descripcion" := Str("Descripción es requerido")]
  {
    var e := ErrorsOf(NullishOrEmpty, RoleFields(), RoleDefaults());
    RoleFormErrorKeys();
    RoleFormErrorValues();
    assert e.Keys == {"nombre", "descripcion"};
  }

  lemma RoleFormErrorKeys()
    ensures ErrorsOf(NullishOrEmpty, RoleFields(), RoleDefaults()).Keys <= {"nombre", "descripcion"}
  {
    var fs := RoleFields();
    var d := RoleDefaults();
    assert FieldError(NullishOrEmpty, fs[2], d).None?;
    forall k | k in ErrorsOf(NullishOrEmpty, fs, d) ensures k in {"nombre", "descripcion"} {
      ErrorKeys(NullishOrEmpty, fs, d, k);
    }
  }

  lemma RoleFormErrorValues()
    ensures var e := ErrorsOf(NullishOrEmpty, RoleFields(), RoleDefaults());
            "nombre" in e && e["nombre"] == Str("Nombre es requerido")
            && "descripcion" in e && e["descripcion"] == Str("Descripción es requerido")
  {
    var fs := RoleFields();
    var d := RoleDefaults();
    assert DistinctIds(fs);
    assert "Nombre" + " es requerido" == "Nombre es requerido";
    assert "Descripción" + " es requerido" == "Descripción es requerido";
    ErrorOfField(NullishOrEmpty, fs, d, 0);
    ErrorOfField(NullishOrEmpty, fs, d, 1);
  }

  // ---------------------------------------------------------------------------
  // The screen

  class RolesPage {
    var roles: seq<Record>
    var privilegios: seq<Record>
    var selectedRole: Option<Record>
    var detailModalOpen: bool
    var formModalOpen: bool
    var privilegeAssignmentOpen: bool
    var isEditing: bool

    /** Ids are numbers and no two roles share one. */
    ghost predicate Valid()
      reads this
    {
      NumericIds(roles) && UniqueIds(roles)
    }

    constructor ()
      ensures roles == InitialRoles() && privilegios == PrivilegesCatalogue()
      ensures selectedRole == None && !detailModalOpen && !formModalOpen
      ensures !privilegeAssignmentOpen && !isEditing
      ensures Valid()
    {
      roles := InitialRoles();
      privilegios := PrivilegesCatalogue();
      selectedRole := None;
      detailModalOpen := false;
      formModalOpen := false;
      privilegeAssignmentOpen := false;
      isEditing := false;
      InitialRolesValid();
    }

    method Create()
      modifies this
      ensures !isEditing && selectedRole == None && formModalOpen
      ensures roles == old(roles) && privilegios == old(privilegios)
      ensures detailModalOpen == old(detailModalOpen) && privilegeAssignmentOpen == old(privilegeAssignmentOpen)
    {
      isEditing := false;
      selectedRole := None;
      formModalOpen := true;
    }

    method Edit(role: Record)
      modifies this
      ensures isEditing && selectedRole == Some(role) && formModalOpen
      ensures roles == old(roles) && privilegios == old(privilegios)
      ensures detailModalOpen == old(detailModalOpen) && privilegeAssignmentOpen == old(privilegeAssignmentOpen)
    {
      isEditing := true;
      selectedRole := Some(role);
      formModalOpen := true;
    }

    /** handleDelete; `confirmed` is the answer to the confirmation prompt. */
    method Delete(role: Record, confirmed: bool)
      requires Valid()
      modifies this
      ensures confirmed ==> roles == RemoveById(old(roles), IdOf(role))
      ensures !confirmed ==> roles == old(roles)
      ensures privilegios == old(privilegios) && selectedRole == old(selectedRole) && isEditing == old(isEditing)
      ensures formModalOpen == old(formModalOpen) && detailModalOpen == old(detailModalOpen)
      ensures privilegeAssignmentOpen == old(privilegeAssignmentOpen)
      ensures Valid()
    {
      if confirmed {
        FilterKeepsIds(roles, (item: Record) => IdOf(item) != IdOf(role));
        roles := RemoveById(roles, IdOf(role));
      }
    }

    method View(role: Record)
      modifies this
      ensures selectedRole == Some(role) && detailModalOpen
      ensures roles == old(roles) && privilegios == old(privilegios) && isEditing == old(isEditing)
      ensures formModalOpen == old(formModalOpen) && privilegeAssignmentOpen == old(privilegeAssignmentOpen)
    {
      selectedRole := Some(role);
      detailModalOpen := true;
    }

    method CloseDetail()
      modifies this
      ensures !detailModalOpen && selectedRole == None
      ensures roles == old(roles) && privilegios == old(privilegios) && isEditing == old(isEditing)
      ensures formModalOpen == old(formModalOpen) && privilegeAssignmentOpen == old(privilegeAssignmentOpen)
    {
      detailModalOpen := false;
      selectedRole := None;
    }

    method CloseForm()
      modifies this
      ensures !formModalOpen && selectedRole == None && !isEditing
      ensures roles == old(roles) && privilegios == old(privilegios)
      ensures detailModalOpen == old(detailModalOpen) && privilegeAssignmentOpen == old(privilegeAssignmentOpen)
    {
      formModalOpen := false;
      selectedRole := None;
      isEditing := false;
    }

    /** handleSubmit; `today` is the locale date string of the current day.
        Editing with no selected role reads `.id` of `null` inside the `map`
        callback, so it throws only when the list has a record for the
        callback to visit; on an empty list the form closes as usual. Creating
        needs a non-empty list for the maximum id. */
    method Submit(formData: Record, today: string) returns (thrown: bool)
      requires Valid()
      requires !isEditing ==> roles != []
      modifies this
      ensures thrown <==> old(isEditing) && old(selectedRole).None? && old(roles) != []
      ensures thrown ==> roles == old(roles) && isEditing && selectedRole.None?
                         && formModalOpen == old(formModalOpen)
      ensures !thrown && old(isEditing) && old(selectedRole).Some? ==>
                roles == MapWhere(old(roles), IdOf(old(selectedRole).value),
                                  (item: Record) => EditedRole(formData, item))
      ensures !thrown && old(isEditing) && old(selectedRole).None? ==> roles == []
      ensures !old(isEditing) ==>
                roles == old(roles) + [NewRole(formData, NextId(old(roles)), today)]
      ensures !thrown ==> !formModalOpen && selectedRole == None && !isEditing
      ensures privilegios == old(privilegios) && detailModalOpen == old(detailModalOpen)
      ensures privilegeAssignmentOpen == old(privilegeAssignmentOpen)
      ensures Valid()
    {
      if isEditing {
        if selectedRole.None? {
          if roles != [] {
            return true;
          }
        } else {
          var f := (item: Record) => EditedRole(formData, item);
          MapWhereKeepsIds(roles, IdOf(selectedRole.value), f);
          roles := MapWhere(roles, IdOf(selectedRole.value), f);
        }
      } else {
        var newId := NextId(roles);
        AppendFreshKeepsIds(roles, NewRole(formData, newId, today));
        roles := roles + [NewRole(formData, newId, today)];
      }
      CloseForm();
      return false;
    }

    /** handleToggleStatus. */
    method ToggleStatus(roleId: Value)
      requires Valid()
      modifies this
      ensures roles == MapWhere(old(roles), roleId, ToggleEstado)
      ensures privilegios == old(privilegios) && selectedRole == old(selectedRole) && isEditing == old(isEditing)
      ensures formModalOpen == old(formModalOpen) && detailModalOpen == old(detailModalOpen)
      ensures privilegeAssignmentOpen == old(privilegeAssignmentOpen)
      ensures Valid()
    {
      MapWhereKeepsIds(roles, roleId, ToggleEstado);
      roles := MapWhere(roles, roleId, ToggleEstado);
    }

    method AssignPrivileges(role: Record)
      modifies this
      ensures selectedRole == Some(role) && privilegeAssignmentOpen
      ensures roles == old(roles) && privilegios == old(privilegios) && isEditing == old(isEditing)
      ensures formModalOpen == old(formModalOpen) && detailModalOpen == old(detailModalOpen)
    {
      selectedRole := Some(role);
      privilegeAssignmentOpen := true;
    }

    /** The privilege dialog's close handler: only its flag changes. */
    method ClosePrivilegeAssignment()
      modifies this
      ensures !privilegeAssignmentOpen
      ensures roles == old(roles) && privilegios == old(privilegios) && isEditing == old(isEditing)
      ensures selectedRole == old(selectedRole)
      ensures formModalOpen == old(formModalOpen) && detailModalOpen == old(detailModalOpen)
    {
      privilegeAssignmentOpen := false;
    }

    /** handleSavePrivilegeAssignment: the chosen privileges applied to the role with that id. */
    method SavePrivilegeAssignment(data: PrivilegePayload)
      requires Valid()
      modifies this
      ensures roles == MapWhere(old(roles), data.roleId, PrivilegesUpdate(privilegios, data.privilegeIds))
      ensures privilegios == old(privilegios) && selectedRole == old(selectedRole) && isEditing == old(isEditing)
      ensures formModalOpen == old(formModalOpen) && detailModalOpen == old(detailModalOpen)
      ensures privilegeAssignmentOpen == old(privilegeAssignmentOpen)
      ensures Valid()
    {
      var f := PrivilegesUpdate(privilegios, data.privilegeIds);
      MapWhereKeepsIds(roles, data.roleId, f);
      roles := MapWhere(roles, data.roleId, f);
    }
  }

  /** The initial roles have unique numeric ids. */
  lemma InitialRolesValid()
    ensures NumericIds(InitialRoles()) && UniqueIds(InitialRoles())
  {
  }
}
