/** The user administration screen: the list of users, the role catalogue,
    the dialogs' flags and the handlers that rewrite the list. */
module Usuarios {
  import opened Js
  import opened Seqs
  import opened RecordLists
  import opened Forms
  import FormModal
  import UserRoleAssignment

  function Role(id: int, nombre: string, descripcion: string): Record {
    map["id" := Num(id), "nombre" := Str(nombre), "descripcion" := Str(descripcion), "estado" := Bool(true)]
  }

  /** The role catalogue the screen starts with. */
  function RolesCatalogue(): seq<Record> {
    [Role(1, "Administrador", "Control total del sistema"),
     Role(2, "Secretario", "Gestión administrativa"),
     Role(3, "Profesor", "Gestión de cursos y estudiantes"),
     Role(4, "Estudiante", "Acceso limitado para estudiantes")]
  }

  function RoleRef(id: int, nombre: string): Value {
    Obj(map["id" := Num(id), "nombre" := Str(nombre)])
  }

  function InitialUsuarios(): seq<Record> {
    [map["id" := Num(1), "nombre" := Str("Juan Pérez"), "tel" := Str("123456789"),
         "correo" := Str("juan@example.com"), "estado" := Bool(true),
         "roles" := Arr([RoleRef(1, "Administrador")]), "primaryRoleId" := Num(1)],
     map["id" := Num(2), "nombre" := Str("Ana Gómez"), "tel" := Str("987654321"),
         "correo" := Str("ana@example.com"), "estado" := Bool(false),
         "roles" := Arr([RoleRef(3, "Profesor"), RoleRef(4, "Estudiante")]), "primaryRoleId" := Num(3)]]
  }

  /** The edited user: the form data, with the old record's id, roles (or `[]`) and primary role. */
  function EditedUser(formData: Record, item: Record): (r: Record)
    ensures IdOf(r) == IdOf(item)
    ensures Get(r, "roles") == Or(Get(item, "roles"), Arr([]))
    ensures Get(r, "primaryRoleId") == Get(item, "primaryRoleId")
    ensures forall k :: k !in {"id", "roles", "primaryRoleId"} ==> Get(r, k) == Get(formData, k)
  {
    formData + map["id" := IdOf(item), "roles" := Or(Get(item, "roles"), Arr([])),
                   "primaryRoleId" := Get(item, "primaryRoleId")]
  }

  /** The created user: the form data with the new id, no roles and a `null` primary role. */
  function NewUser(formData: Record, newId: int): (r: Record)
    ensures IdOf(r) == Num(newId) && Get(r, "roles") == Arr([]) && Get(r, "primaryRoleId") == Null
    ensures forall k :: k !in {"id", "roles", "primaryRoleId"} ==> Get(r, k) == Get(formData, k)
  {
    formData + map["id" := Num(newId), "roles" := Arr([]), "primaryRoleId" := Null]
  }

  /** The user after a role save: the catalogue roles whose id was chosen, and the given primary. */
  function WithRoles(user: Record, catalogue: seq<Record>, roleIds: seq<Value>, primary: Value): (r: Record)
    ensures IdOf(r) == IdOf(user)
    ensures Get(r, "roles") == Objects(FromCatalogue(catalogue, roleIds))
    ensures Get(r, "primaryRoleId") == primary
    ensures forall k :: k !in {"roles", "primaryRoleId"} ==> Get(r, k) == Get(user, k)
  {
    user + map["roles" := Objects(FromCatalogue(catalogue, roleIds)), "primaryRoleId" := primary]
  }

  /** The per-user update of a role save, as a function value. */
  function RolesUpdate(catalogue: seq<Record>, roleIds: seq<Value>, primary: Value): Record -> Record {
    (user: Record) => WithRoles(user, catalogue, roleIds, primary)
  }

  // ---------------------------------------------------------------------------
  // The detail view's primary-role field

  /** `roles.find((role) => role.id === primary)`; reading `.id` of a nullish
      entry throws. */
  function FindRole(items: seq<Value>, primary: Value): (r: Result<Option<Value>>)
    ensures r.Ok? && r.value.Some? ==> r.value.value in items && !IsNullish(r.value.value)
                                       && Prop(r.value.value, "id") == primary
    decreases |items|
  {
    if items == [] then Ok(None)
    else if IsNullish(items[0]) then TypeError
    else if Prop(items[0], "id") == primary then Ok(Some(items[0]))
    else FindRole(items[1..], primary)
  }

  /** getPrimaryRoleName with the matched role's label read from field `key`.
      A non-empty string in `roles` has a length but no `find`; an object
      with a truthy `length` has no `find` either. */
  function PrimaryRoleLabel(user: Record, key: string): Result<Value> {
    var roles := Get(user, "roles");
    var hasEntries := match roles
      case Arr(items) => |items| > 0
      case Str(s) => s != ""
      case Obj(fs) => Truthy(Get(fs, "length"))
      case _ => false;
    if !hasEntries then Ok(Str("No role assigned"))
    else if !roles.Arr? then TypeError
    else match FindRole(roles.items, Get(user, "primaryRoleId"))
      case TypeError => TypeError
      case Ok(None) => Ok(Str("No primary role"))
      case Ok(Some(role)) => if Truthy(role) then Ok(Prop(role, key)) else Ok(Str("No primary role"))
  }

  /** The detail view's primary-role field as written: it reads the role's
      `name`, a field no role has. */
  function PrimaryRoleNameAsWritten(user: Record): Result<Value> {
    PrimaryRoleLabel(user, "name")
  }

  /** The primary-role field as intended: the role's `nombre`. */
  function PrimaryRoleName(user: Record): Result<Value> {
    PrimaryRoleLabel(user, "nombre")
  }

  /** The first role whose id is the primary one is the match. */
  lemma {:induction false} FindRoleFirst(items: seq<Value>, primary: Value, i: int)
    requires 0 <= i < |items| && forall j :: 0 <= j < |items| ==> items[j].Obj?
    requires Prop(items[i], "id") == primary
    requires forall j :: 0 <= j < i ==> Prop(items[j], "id") != primary
    ensures FindRole(items, primary) == Ok(Some(items[i]))
    decreases |items|
  {
    if i > 0 {
      assert forall j :: 0 <= j < |items[1..]| ==> items[1..][j] == items[j + 1];
      FindRoleFirst(items[1..], primary, i - 1);
    }
  }

  /** With no role matching, `find` yields nothing. */
  lemma {:induction false} FindRoleNone(items: seq<Value>, primary: Value)
    requires forall j :: 0 <= j < |items| ==> items[j].Obj? && Prop(items[j], "id") != primary
    ensures FindRole(items, primary) == Ok(None)
    decreases |items|
  {
    if items != [] {
      assert forall j :: 0 <= j < |items[1..]| ==> items[1..][j] == items[j + 1];
      FindRoleNone(items[1..], primary);
    }
  }

  /** The three outcomes for a user whose roles are objects. */
  lemma PrimaryRoleLabelCases(user: Record, key: string, items: seq<Value>)
    requires Get(user, "roles") == Arr(items)
    requires forall j :: 0 <= j < |items| ==> items[j].Obj?
    ensures items == [] ==> PrimaryRoleLabel(user, key) == Ok(Str("No role assigned"))
    ensures (forall j :: 0 <= j < |items| ==> Prop(items[j], "id") != Get(user, "primaryRoleId")) && items != [] ==>
              PrimaryRoleLabel(user, key) == Ok(Str("No primary role"))
    ensures forall i :: 0 <= i < |items| && Prop(items[i], "id") == Get(user, "primaryRoleId")
                        && (forall j :: 0 <= j < i ==> Prop(items[j], "id") != Get(user, "primaryRoleId")) ==>
              PrimaryRoleLabel(user, key) == Ok(Prop(items[i], key))
  {
    var primary := Get(user, "primaryRoleId");
    if forall j :: 0 <= j < |items| ==> Prop(items[j], "id") != primary {
      FindRoleNone(items, primary);
    }
    forall i | 0 <= i < |items| && Prop(items[i], "id") == primary
               && (forall j :: 0 <= j < i ==> Prop(items[j], "id") != primary)
      ensures PrimaryRoleLabel(user, key) == Ok(Prop(items[i], key))
    {
      PrimaryRoleLabelAt(user, key, items, i);
    }
  }

  /** The label when the first role with the primary id sits at position `i`. */
  lemma PrimaryRoleLabelAt(user: Record, key: string, items: seq<Value>, i: int)
    requires Get(user, "roles") == Arr(items)
    requires forall j :: 0 <= j < |items| ==> items[j].Obj?
    requires 0 <= i < |items| && Prop(items[i], "id") == Get(user, "primaryRoleId")
    requires forall j :: 0 <= j < i ==> Prop(items[j], "id") != Get(user, "primaryRoleId")
    ensures PrimaryRoleLabel(user, key) == Ok(Prop(items[i], key))
  {
    FindRoleFirst(items, Get(user, "primaryRoleId"), i);
  }

  /** For the first listed user the primary-role field as written is
      `undefined`, which renders blank, while the intended reading shows
      "Administrador". */
  lemma PrimaryRoleNameAsWrittenIsEmpty()
    ensures PrimaryRoleNameAsWritten(InitialUsuarios()[0]) == Ok(Undefined)
    ensures PrimaryRoleName(InitialUsuarios()[0]) == Ok(Str("Administrador"))
  {
    var user := InitialUsuarios()[0];
    PrimaryRoleLabelCases(user, "name", [RoleRef(1, "Administrador")]);
    PrimaryRoleLabelCases(user, "nombre", [RoleRef(1, "Administrador")]);
  }

  /** After a role save whose primary is among the chosen ids and in the
      catalogue, the intended field shows a catalogue role's `nombre`. */
  lemma SavedPrimaryIsNamed(user: Record, catalogue: seq<Record>, roleIds: seq<Value>, primary: Value)
    requires primary in roleIds
    requires exists c :: c in catalogue && IdOf(c) == primary
    ensures exists c :: c in catalogue && IdOf(c) == primary &&
              PrimaryRoleName(WithRoles(user, catalogue, roleIds, primary)) == Ok(Get(c, "nombre"))
  {
    var chosen := FromCatalogue(catalogue, roleIds);
    var u := WithRoles(user, catalogue, roleIds, primary);
    var c :| c in catalogue && IdOf(c) == primary;
    FilterMembers(catalogue, (entry: Record) => IdOf(entry) in roleIds, c);
    var i := FirstWithId(chosen, primary);
    NamedAt(u, chosen, i);
    FilterMembers(catalogue, (entry: Record) => IdOf(entry) in roleIds, chosen[i]);
    assert chosen[i] in catalogue && IdOf(chosen[i]) == primary;
  }

  /** A user whose roles are the records `rs`, the first with the primary
      id at `i`, is labelled with that record's `nombre`. */
  lemma NamedAt(u: Record, rs: seq<Record>, i: int)
    requires Get(u, "roles") == Objects(rs)
    requires 0 <= i < |rs| && IdOf(rs[i]) == Get(u, "primaryRoleId")
    requires forall j :: 0 <= j < i ==> IdOf(rs[j]) != Get(u, "primaryRoleId")
    ensures PrimaryRoleName(u) == Ok(Get(rs[i], "nombre"))
  {
    var items := Objects(rs).items;
    assert forall j :: 0 <= j < |items| ==> items[j] == Obj(rs[j]) && Prop(items[j], "id") == IdOf(rs[j]);
    PrimaryRoleLabelAt(u, "nombre", items, i);
  }

  /** The first position holding an id, when some entry holds it. */
  ghost function FirstWithId(rs: seq<Record>, id: Value): (i: int)
    requires exists c :: c in rs && IdOf(c) == id
    ensures 0 <= i < |rs| && IdOf(rs[i]) == id && forall j :: 0 <= j < i ==> IdOf(rs[j]) != id
    decreases |rs|
  {
    if IdOf(rs[0]) == id then 0
    else
      var c :| c in rs && IdOf(c) == id;
      assert rs == [rs[0]] + rs[1..];
      assert c in rs[1..];
      var i := FirstWithId(rs[1..], id);
      assert forall j :: 0 < j <= i ==> rs[j] == rs[1..][j - 1];
      i + 1
  }

  // ---------------------------------------------------------------------------
  // The user form

  function UsuarioFields(): seq<Field> {
    [Field("nombre", "Nombre", true, None, Undefined, ""),
     Field("tel", "Tel", true, None, Undefined, ""),
     Field("correo", "Correo", true, None, Undefined, ""),
     Field("estado", "Estado", false, None, Bool(true), "")]
  }

  /** The new-user form's starting record. */
  function UsuarioDefaults(): Record {
    map["nombre" := Str(""), "tel" := Str(""), "correo" := Str(""), "estado" := Bool(true)]
  }

  /** A new user's form starts with empty text and `estado` true. */
  lemma UsuarioFormDefaults()
    ensures FormModal.DefaultsOf(UsuarioFields()) == UsuarioDefaults()
  {
    var fs := UsuarioFields();
    assert fs[..1][..0] == [];
    assert fs[..2][..1] == fs[..1];
    assert fs[..3][..2] == fs[..2];
    assert fs[..3] == fs[..|fs| - 1];
    assert FormModal.DefaultsOf(fs[..1]) == map["nombre" := Str("")];
    assert FormModal.DefaultsOf(fs[..2]) == map["nombre" := Str(""), "tel" := Str("")];
    assert FormModal.DefaultsOf(fs[..3]) == map["nombre" := Str(""), "tel" := Str(""), "correo" := Str("")];
  }

  /** Submitting the untouched default form reports exactly the three required fields. */
  lemma UsuarioFormRequired()
    ensures ErrorsOf(NullishOrEmpty, UsuarioFields(), UsuarioDefaults()) ==
              map["nombre" := Str("Nombre es requerido"), "tel" := Str("Tel es requerido"),
                  "correo" := Str("Correo es requerido")]
  {
    var e := ErrorsOf(NullishOrEmpty, UsuarioFields(), UsuarioDefaults());
    UsuarioFormErrorKeys();
    UsuarioFormErrorValues();
    assert e.Keys == {"nombre", "tel", "correo"};
  }

  lemma UsuarioFormErrorKeys()
    ensures ErrorsOf(NullishOrEmpty, UsuarioFields(), UsuarioDefaults()).Keys <= {"nombre", "tel", "correo"}
  {
    var fs := UsuarioFields();
    var d := UsuarioDefaults();
    assert FieldError(NullishOrEmpty, fs[3], d).None?;
    forall k | k in ErrorsOf(NullishOrEmpty, fs, d) ensures k in {"nombre", "tel", "correo"} {
      ErrorKeys(NullishOrEmpty, fs, d, k);
    }
  }

  lemma UsuarioFormErrorValues()
    ensures var e := ErrorsOf(NullishOrEmpty, UsuarioFields(), UsuarioDefaults());
            "nombre" in e && e["nombre"] == Str("Nombre es requerido")
            && "tel" in e && e["tel"] == Str("Tel es requerido")
            && "correo" in e && e["correo"] == Str("Correo es requerido")
  {
    UsuarioRequiredAt(0);
    UsuarioRequiredAt(1);
    UsuarioRequiredAt(2);
    UsuarioTextField(0);
    UsuarioTextField(1);
    UsuarioTextField(2);
  }

  /** Each of the three text fields is reported under its id with its required message. */
  lemma UsuarioRequiredAt(i: int)
    requires 0 <= i < 3
    ensures UsuarioFields()[i].id in ErrorsOf(NullishOrEmpty, UsuarioFields(), UsuarioDefaults())
    ensures ErrorsOf(NullishOrEmpty, UsuarioFields(), UsuarioDefaults())[UsuarioFields()[i].id]
              == RequiredMessage(UsuarioFields()[i])
  {
    UsuarioIdsDistinct();
    UsuarioTextField(i);
    RequiredMissingReported(NullishOrEmpty, UsuarioFields(), UsuarioDefaults(), i);
  }

  lemma UsuarioIdsDistinct()
    ensures DistinctIds(UsuarioFields())
  {
  }

  /** The three text fields: required, without validator, empty by default. */
  lemma UsuarioTextField(i: int)
    requires 0 <= i < 3
    ensures UsuarioFields()[i].required && UsuarioFields()[i].validator.None?
    ensures Missing(NullishOrEmpty, Get(UsuarioDefaults(), UsuarioFields()[i].id))
    ensures UsuarioFields()[i].id == ["nombre", "tel", "correo"][i]
    ensures RequiredMessage(UsuarioFields()[i])
              == Str(["Nombre es requerido", "Tel es requerido", "Correo es requerido"][i])
  {
    if i == 0 {
      assert "Nombre" + " es requerido" == "Nombre es requerido";
    } else if i == 1 {
      assert "Tel" + " es requerido" == "Tel es requerido";
    } else {
      assert "Correo" + " es requerido" == "Correo es requerido";
    }
  }

  // ---------------------------------------------------------------------------
  // The screen

  class UsuariosPage {
    var usuarios: seq<Record>
    var roles: seq<Record>
    var selectedUsuario: Option<Record>
    var detailModalOpen: bool
    var formModalOpen: bool
    var roleAssignmentOpen: bool
    var isEditing: bool

    /** Ids are numbers and no two users share one. */
    ghost predicate Valid()
      reads this
    {
      NumericIds(usuarios) && UniqueIds(usuarios)
    }

    constructor ()
      ensures usuarios == InitialUsuarios() && roles == RolesCatalogue()
      ensures selectedUsuario == None && !detailModalOpen && !formModalOpen
      ensures !roleAssignmentOpen && !isEditing
      ensures Valid()
    {
      usuarios := InitialUsuarios();
      roles := RolesCatalogue();
      selectedUsuario := None;
      detailModalOpen := false;
      formModalOpen := false;
      roleAssignmentOpen := false;
      isEditing := false;
    }

    method Create()
      modifies this
      ensures !isEditing && selectedUsuario == None && formModalOpen
      ensures usuarios == old(usuarios) && roles == old(roles)
      ensures detailModalOpen == old(detailModalOpen) && roleAssignmentOpen == old(roleAssignmentOpen)
    {
      isEditing := false;
      selectedUsuario := None;
      formModalOpen := true;
    }

    method Edit(usuario: Record)
      modifies this
      ensures isEditing && selectedUsuario == Some(usuario) && formModalOpen
      ensures usuarios == old(usuarios) && roles == old(roles)
      ensures detailModalOpen == old(detailModalOpen) && roleAssignmentOpen == old(roleAssignmentOpen)
    {
      isEditing := true;
      selectedUsuario := Some(usuario);
      formModalOpen := true;
    }

    /** handleDelete; `confirmed` is the answer to the confirmation prompt. */
    method Delete(usuario: Record, confirmed: bool)
      requires Valid()
      modifies this
      ensures confirmed ==> usuarios == RemoveById(old(usuarios), IdOf(usuario))
      ensures !confirmed ==> usuarios == old(usuarios)
      ensures roles == old(roles) && selectedUsuario == old(selectedUsuario) && isEditing == old(isEditing)
      ensures formModalOpen == old(formModalOpen) && detailModalOpen == old(detailModalOpen)
      ensures roleAssignmentOpen == old(roleAssignmentOpen)
      ensures Valid()
    {
      if confirmed {
        FilterKeepsIds(usuarios, (item: Record) => IdOf(item) != IdOf(usuario));
        usuarios := RemoveById(usuarios, IdOf(usuario));
      }
    }

    method View(usuario: Record)
      modifies this
      ensures selectedUsuario == Some(usuario) && detailModalOpen
      ensures usuarios == old(usuarios) && roles == old(roles) && isEditing == old(isEditing)
      ensures formModalOpen == old(formModalOpen) && roleAssignmentOpen == old(roleAssignmentOpen)
    {
      selectedUsuario := Some(usuario);
      detailModalOpen := true;
    }

    method CloseDetail()
      modifies this
      ensures !detailModalOpen && selectedUsuario == None
      ensures usuarios == old(usuarios) && roles == old(roles) && isEditing == old(isEditing)
      ensures formModalOpen == old(formModalOpen) && roleAssignmentOpen == old(roleAssignmentOpen)
    {
      detailModalOpen := false;
      selectedUsuario := None;
    }

    method CloseForm()
      modifies this
      ensures !formModalOpen && selectedUsuario == None && !isEditing
      ensures usuarios == old(usuarios) && roles == old(roles)
      ensures detailModalOpen == old(detailModalOpen) && roleAssignmentOpen == old(roleAssignmentOpen)
    {
      formModalOpen := false;
      selectedUsuario := None;
      isEditing := false;
    }

    /** handleSubmit. Editing with no selected user reads `.id` of `null`
        inside the `map` callback, so it throws only when the list has a
        record for the callback to visit; on an empty list the form closes as
        usual. Creating needs a non-empty list for the maximum id. */
    method Submit(formData: Record) returns (thrown: bool)
      requires Valid()
      requires !isEditing ==> usuarios != []
      modifies this
      ensures thrown <==> old(isEditing) && old(selectedUsuario).None? && old(usuarios) != []
      ensures thrown ==> usuarios == old(usuarios) && isEditing && selectedUsuario.None?
                         && formModalOpen == old(formModalOpen)
      ensures !thrown && old(isEditing) && old(selectedUsuario).Some? ==>
                usuarios == MapWhere(old(usuarios), IdOf(old(selectedUsuario).value),
                                     (item: Record) => EditedUser(formData, item))
      ensures !thrown && old(isEditing) && old(selectedUsuario).None? ==> usuarios == []
      ensures !old(isEditing) ==>
                usuarios == old(usuarios) + [NewUser(formData, NextId(old(usuarios)))]
      ensures !thrown ==> !formModalOpen && selectedUsuario == None && !isEditing
      ensures roles == old(roles) && detailModalOpen == old(detailModalOpen)
      ensures roleAssignmentOpen == old(roleAssignmentOpen)
      ensures Valid()
    {
      if isEditing {
        if selectedUsuario.None? {
          if usuarios != [] {
            return true;
          }
        } else {
          var f := (item: Record) => EditedUser(formData, item);
          MapWhereKeepsIds(usuarios, IdOf(selectedUsuario.value), f);
          usuarios := MapWhere(usuarios, IdOf(selectedUsuario.value), f);
        }
      } else {
        var newId := NextId(usuarios);
        AppendFreshKeepsIds(usuarios, NewUser(formData, newId));
        usuarios := usuarios + [NewUser(formData, newId)];
      }
      CloseForm();
      return false;
    }

    /** handleToggleStatus. */
    method ToggleStatus(usuarioId: Value)
      requires Valid()
      modifies this
      ensures usuarios == MapWhere(old(usuarios), usuarioId, ToggleEstado)
      ensures roles == old(roles) && selectedUsuario == old(selectedUsuario) && isEditing == old(isEditing)
      ensures formModalOpen == old(formModalOpen) && detailModalOpen == old(detailModalOpen)
      ensures roleAssignmentOpen == old(roleAssignmentOpen)
      ensures Valid()
    {
      MapWhereKeepsIds(usuarios, usuarioId, ToggleEstado);
      usuarios := MapWhere(usuarios, usuarioId, ToggleEstado);
    }

    method AssignRoles(usuario: Record)
      modifies this
      ensures selectedUsuario == Some(usuario) && roleAssignmentOpen
      ensures usuarios == old(usuarios) && roles == old(roles) && isEditing == old(isEditing)
      ensures formModalOpen == old(formModalOpen) && detailModalOpen == old(detailModalOpen)
    {
      selectedUsuario := Some(usuario);
      roleAssignmentOpen := true;
    }

    method CloseRoleAssignment()
      modifies this
      ensures !roleAssignmentOpen
      ensures usuarios == old(usuarios) && roles == old(roles) && isEditing == old(isEditing)
      ensures selectedUsuario == old(selectedUsuario)
      ensures formModalOpen == old(formModalOpen) && detailModalOpen == old(detailModalOpen)
    {
      roleAssignmentOpen := false;
    }

    /** handleSaveRoleAssignment: the dialog's payload applied to the user with that id. */
    method SaveRoleAssignment(data: UserRoleAssignment.SavePayload)
      requires Valid()
      modifies this
      ensures usuarios == MapWhere(old(usuarios), data.userId, RolesUpdate(roles, data.roleIds, data.primaryRoleId))
      ensures roles == old(roles) && selectedUsuario == old(selectedUsuario) && isEditing == old(isEditing)
      ensures formModalOpen == old(formModalOpen) && detailModalOpen == old(detailModalOpen)
      ensures roleAssignmentOpen == old(roleAssignmentOpen)
      ensures Valid()
    {
      var f := RolesUpdate(roles, data.roleIds, data.primaryRoleId);
      MapWhereKeepsIds(usuarios, data.userId, f);
      usuarios := MapWhere(usuarios, data.userId, f);
    }
  }

  /** The initial users have unique numeric ids. */
  lemma InitialUsuariosValid()
    ensures NumericIds(InitialUsuarios()) && UniqueIds(InitialUsuarios())
  {
  }
}
