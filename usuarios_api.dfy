/**
 * The users endpoint: the partial update an administrator makes from the
 * user edit form, with its reactivation rule, and the `is_active` filter
 * of the user listing.
 */
module UsuariosApi {
  import opened Wrappers
  import opened Models
  import PyText
  import JsText

  /** A role (`roles.Rol`). */
  datatype Rol = Rol(id: int, descripcion: string)

  /**
   * A user account. `password` stands for what `set_password` derives from
   * a raw password: the model keeps the raw text it was derived from.
   */
  datatype User = User(
    id: int,
    apellido: string,
    nombre: string,
    legajo: string,
    documento: string,
    email: string,
    rolId: Option<int>,
    isActive: bool,
    password: string,
    hasChangedPassword: bool)

  /** The body of an update request; every key may be absent or `null`. */
  datatype UpdateData = UpdateData(
    apellido: Value,
    nombre: Value,
    legajo: Value,
    documento: Value,
    email: Value,
    rol: Value,
    isActive: Value)

  /** Why an update is answered 400 with the exception's text. */
  datatype UpdateError =
    | UserNotFound     // `User.objects.get(pk=pk)` raises DoesNotExist
    | RolNotFound      // `Rol.objects.get(id=...)` raises DoesNotExist
    | InvalidRol       // the role id is not an integer
    | InvalidBoolean   // `save()` cannot read `is_active` as a boolean

  /** The integer an id lookup makes of a value (`int()` of it). */
  function IdOf(v: Value): Option<int> {
    match v
    case Bool(b) => Some(if b then 1 else 0)
    case Int(i) => Some(i)
    case Str(s) => PyText.PyInt(s)
    case _ => None
  }

  /** The position of the row with primary key `id`. */
  function IndexOfUser(users: seq<User>, id: int): (r: Option<nat>)
    ensures r.Some? ==> r.value < |users| && users[r.value].id == id
    ensures r.None? ==> forall k :: 0 <= k < |users| ==> users[k].id != id
  {
    if users == [] then None
    else if users[0].id == id then Some(0)
    else match IndexOfUser(users[1..], id)
      case None => None
      case Some(k) => Some(k + 1)
  }

  function FindRol(roles: seq<Rol>, id: int): (r: Option<Rol>)
    ensures r.Some? ==> r.value in roles && r.value.id == id
    ensures r.None? ==> forall k :: 0 <= k < |roles| ==> roles[k].id != id
  {
    if roles == [] then None
    else if roles[0].id == id then Some(roles[0])
    else FindRol(roles[1..], id)
  }

  /**
   * What a `BooleanField` makes of a value when the row is saved: `True`,
   * `False`, 1 and 0, and the strings "t", "True", "1", "f", "False", "0";
   * anything else is a validation error.
   */
  function BooleanOf(v: Value): Option<bool> {
    match v
    case Bool(b) => Some(b)
    case Int(i) => if i == 1 then Some(true) else if i == 0 then Some(false) else None
    case Str(s) =>
      if s == "t" || s == "True" || s == "1" then Some(true)
      else if s == "f" || s == "False" || s == "0" then Some(false)
      else None
    case _ => None
  }

  /** The text a `CharField` stores for a given value; the old text when the key is absent or `null`. */
  function Assign(old_: string, v: Value): string {
    if Given(v) then StrOf(v) else old_
  }

  /** The account after `update`, or the error it answers 400 with. */
  function Updated(u: User, roles: seq<Rol>, data: UpdateData): Result<User, UpdateError> {
    var documento := Assign(u.documento, data.documento);
    var fields := u.(apellido := Assign(u.apellido, data.apellido), nombre := Assign(u.nombre, data.nombre),
                     legajo := Assign(u.legajo, data.legajo), documento := documento, email := Assign(u.email, data.email));
    var rol: Result<Option<int>, UpdateError> :=
      if !Given(data.rol) then Ok(u.rolId)
      else match IdOf(data.rol)
        case None => Err(InvalidRol)
        case Some(id) => if FindRol(roles, id).None? then Err(RolNotFound) else Ok(Some(id));
    if rol.Err? then Err(rol.error)
    else if !Given(data.isActive) then Ok(fields.(rolId := rol.value))
    else match BooleanOf(data.isActive)
      case None => Err(InvalidBoolean)
      case Some(active) =>
        if Truthy(data.isActive) then
          Ok(fields.(rolId := rol.value, isActive := active, password := documento, hasChangedPassword := false))
        else Ok(fields.(rolId := rol.value, isActive := active))
  }

  /** The table after `update(pk)`. */
  function UpdateTable(users: seq<User>, roles: seq<Rol>, pk: int, data: UpdateData): Result<seq<User>, UpdateError> {
    match IndexOfUser(users, pk)
    case None => Err(UserNotFound)
    case Some(k) =>
      match Updated(users[k], roles, data)
      case Err(e) => Err(e)
      case Ok(u) => Ok(users[k := u])
  }

  /**
   * Each of apellido, nombre, legajo, documento and email changes only when
   * the request gives it (not absent, not `null`), and then to that value;
   * the id never changes, and the role, when given, is the one with that id.
   */
  lemma UpdateOnlyGivenFields(u: User, roles: seq<Rol>, data: UpdateData)
    requires Updated(u, roles, data).Ok?
    ensures var v := Updated(u, roles, data).value;
            && v.id == u.id
            && (Given(data.apellido) ==> v.apellido == StrOf(data.apellido))
            && (!Given(data.apellido) ==> v.apellido == u.apellido)
            && (Given(data.nombre) ==> v.nombre == StrOf(data.nombre))
            && (!Given(data.nombre) ==> v.nombre == u.nombre)
            && (Given(data.legajo) ==> v.legajo == StrOf(data.legajo))
            && (!Given(data.legajo) ==> v.legajo == u.legajo)
            && (Given(data.documento) ==> v.documento == StrOf(data.documento))
            && (!Given(data.documento) ==> v.documento == u.documento)
            && (Given(data.email) ==> v.email == StrOf(data.email))
            && (!Given(data.email) ==> v.email == u.email)
            && (Given(data.rol) ==> v.rolId.Some? && FindRol(roles, v.rolId.value).Some? && Some(v.rolId.value) == IdOf(data.rol))
            && (!Given(data.rol) ==> v.rolId == u.rolId)
  {
    UpdatedAssigns(u, roles, data);
  }

  /** The updated account's texts are the assigned ones, and its role is the one the request resolves to. */
  lemma UpdatedAssigns(u: User, roles: seq<Rol>, data: UpdateData)
    requires Updated(u, roles, data).Ok?
    ensures var v := Updated(u, roles, data).value;
            && v.id == u.id && v.apellido == Assign(u.apellido, data.apellido) && v.nombre == Assign(u.nombre, data.nombre)
            && v.legajo == Assign(u.legajo, data.legajo) && v.documento == Assign(u.documento, data.documento)
            && v.email == Assign(u.email, data.email)
            && (Given(data.rol) ==> IdOf(data.rol).Some? && v.rolId == IdOf(data.rol) && FindRol(roles, IdOf(data.rol).value).Some?)
            && (!Given(data.rol) ==> v.rolId == u.rolId)
  {
  }

  /**
   * Reactivating resets the password to the document number, the one this
   * same request may have just set, and asks for a new password at the next
   * login; deactivating with `false` changes `is_active` and nothing about
   * the password.
   */
  lemma ActivationRule(u: User, roles: seq<Rol>, data: UpdateData)
    requires Updated(u, roles, data).Ok?
    ensures var v := Updated(u, roles, data).value;
            && (Given(data.isActive) ==> Some(v.isActive) == BooleanOf(data.isActive))
            && (!Given(data.isActive) ==> v.isActive == u.isActive)
            && (Truthy(data.isActive) ==> v.password == v.documento && !v.hasChangedPassword)
            && (!Truthy(data.isActive) ==> v.password == u.password && v.hasChangedPassword == u.hasChangedPassword)
  {
  }

  /**
   * The string "False" is truthy, so it both deactivates the account and
   * resets its password; a JSON `false` only deactivates it.
   */
  lemma FalseStringResetsPassword(u: User, roles: seq<Rol>)
    ensures var s := Updated(u, roles, UpdateData(Missing, Missing, Missing, Missing, Missing, Missing, Str("False")));
            s.Ok? && !s.value.isActive && s.value.password == u.documento && !s.value.hasChangedPassword
    ensures var b := Updated(u, roles, UpdateData(Missing, Missing, Missing, Missing, Missing, Missing, Bool(false)));
            b.Ok? && !b.value.isActive && b.value.password == u.password
  {
  }

  /** An unknown user, an unknown or malformed role, or an unreadable `is_active` changes nothing. */
  lemma UpdateErrors(users: seq<User>, roles: seq<Rol>, pk: int, data: UpdateData)
    ensures UpdateTable(users, roles, pk, data) == Err(UserNotFound) <==> forall k :: 0 <= k < |users| ==> users[k].id != pk
    ensures (Given(data.rol) && IdOf(data.rol).Some? && FindRol(roles, IdOf(data.rol).value).None? && IndexOfUser(users, pk).Some?)
              ==> UpdateTable(users, roles, pk, data) == Err(RolNotFound)
    ensures UpdateTable(users, roles, pk, data).Ok? ==>
              var after := UpdateTable(users, roles, pk, data).value;
              |after| == |users| && forall k :: 0 <= k < |users| && users[k].id != pk ==> after[k] == users[k]
  {
  }

  /** The users table and the roles it refers to, updated in place. */
  class UserStore {
    var users: seq<User>
    var roles: seq<Rol>

    constructor (users: seq<User>, roles: seq<Rol>)
      ensures this.users == users && this.roles == roles
    {
      this.users := users;
      this.roles := roles;
    }

    /** `update`: 200 after saving the user, 400 with nothing saved on any error. */
    method Update(pk: int, data: UpdateData) returns (status: int, error: Option<UpdateError>)
      modifies this
      ensures roles == old(roles)
      ensures match UpdateTable(old(users), old(roles), pk, data)
              case Ok(after) => status == 200 && error.None? && users == after
              case Err(e) => status == 400 && error == Some(e) && users == old(users)
    {
      var found := IndexOfUser(users, pk);
      if found.None? {
        return 400, Some(UserNotFound);
      }
      var k := found.value;
      var user := users[k];
      user := user.(apellido := Assign(user.apellido, data.apellido));
      user := user.(nombre := Assign(user.nombre, data.nombre));
      user := user.(legajo := Assign(user.legajo, data.legajo));
      user := user.(documento := Assign(user.documento, data.documento));
      user := user.(email := Assign(user.email, data.email));
      if Given(data.rol) {
        var id := IdOf(data.rol);
        if id.None? {
          return 400, Some(InvalidRol);
        }
        if FindRol(roles, id.value).None? {
          return 400, Some(RolNotFound);
        }
        user := user.(rolId := Some(id.value));
      }
      if Given(data.isActive) {
        var active := BooleanOf(data.isActive);
        if active.None? {
          return 400, Some(InvalidBoolean);
        }
        user := user.(isActive := active.value);
        if Truthy(data.isActive) {
          user := user.(password := user.documento, hasChangedPassword := false);
        }
      }
      users := users[k := user];
      return 200, None;
    }
  }

  // ---------------------------------------------------------------------
  // The `is_active` filter of `list`

  /** `is_active` filters only for "true" or "false", in any letter case; any other value is ignored. */
  function IsActiveFilter(param: Option<string>): (r: Option<bool>)
    ensures r.Some? ==> param.Some? && JsText.LowerAscii(param.value) == (if r.value then "true" else "false")
    ensures r.None? ==> param.None? || JsText.LowerAscii(param.value) !in {"true", "false"}
  {
    match param
    case None => None
    case Some(text) =>
      var lower := JsText.LowerAscii(text);
      if lower == "true" then Some(true) else if lower == "false" then Some(false) else None
  }

  /** The users the `is_active` parameter lets through, in listing order. */
  function FilterActive(users: seq<User>, param: Option<string>): (r: seq<User>)
    ensures |r| <= |users|
  {
    match IsActiveFilter(param)
    case None => users
    case Some(active) =>
      if users == [] then []
      else
        var rest := FilterActive(users[1..], param);
        if users[0].isActive == active then [users[0]] + rest else rest
  }

  /** With a recognised `is_active` a user is listed exactly when its flag matches; otherwise all are listed. */
  lemma {:induction false} FilterActiveIff(users: seq<User>, param: Option<string>, u: User)
    ensures u in FilterActive(users, param) <==> u in users && (IsActiveFilter(param).None? || u.isActive == IsActiveFilter(param).value)
  {
    if IsActiveFilter(param).Some? && users != [] {
      FilterActiveIff(users[1..], param, u);
      assert users == [users[0]] + users[1..];
    }
  }

  /** "TRUE" and "False" are recognised; "yes" and "" are ignored. */
  lemma IsActiveSpellings()
    ensures IsActiveFilter(Some("TRUE")) == Some(true)
    ensures IsActiveFilter(Some("False")) == Some(false)
    ensures IsActiveFilter(Some("yes")).None? && IsActiveFilter(Some("")).None?
  {
    assert JsText.LowerAscii("TRUE") == "true";
    assert JsText.LowerAscii("False") == "false";
  }
}
