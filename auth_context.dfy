/** The session provider: the signed-in user kept in state and mirrored in
    browser storage, the credential lookup of login, logout, the merge rules
    of a profile update and the effect that restores a stored user. */
module AuthContext {
  import opened Js

  /** `JSON.parse(JSON.stringify(r))` on a flat record: keys whose value is
      `undefined` are not written. */
  function Json(r: Record): (j: Record)
    ensures forall k :: Get(j, k) == Get(r, k)
    ensures forall k :: k in j ==> j[k] != Undefined
  {
    map k | k in r && r[k] != Undefined :: r[k]
  }

  /** Storing a record and reading it back twice gives the same record. */
  lemma JsonIdempotent(r: Record)
    ensures Json(Json(r)) == Json(r)
  {
  }

  predicate Matches(u: Record, email: Value, password: Value) {
    Get(u, "email") == email && Get(u, "password") == password
  }

  /** `mockUsers.find(...)`: the first user with that email and password. */
  function FindUser(users: seq<Record>, email: Value, password: Value): (r: Option<Record>)
    ensures r.None? <==> forall i :: 0 <= i < |users| ==> !Matches(users[i], email, password)
    ensures r.Some? ==> exists i :: 0 <= i < |users| && users[i] == r.value
                          && Matches(users[i], email, password)
                          && forall j :: 0 <= j < i ==> !Matches(users[j], email, password)
    decreases |users|
  {
    if users == [] then None
    else if Matches(users[0], email, password) then Some(users[0])
    else
      var r := FindUser(users[1..], email, password);
      assert forall i :: 1 <= i < |users| ==> users[i] == users[1..][i - 1];
      if r.Some? then
        var i :| 0 <= i < |users[1..]| && users[1..][i] == r.value
                 && Matches(users[1..][i], email, password)
                 && forall j :: 0 <= j < i ==> !Matches(users[1..][j], email, password);
        assert users[i + 1] == r.value;
        r
      else r
  }

  const Masked: Value := Str("********")

  /** `existing[k]` read as a fallback; reading a property of `null` throws. */
  function Fallback(existing: Option<Record>, k: string): Result<Value> {
    if existing.None? then TypeError else Ok(Get(existing.value, k))
  }

  /** The record `updateUser` builds: the existing record overridden by every
      key of `userData`, then the password kept when the masked placeholder is
      sent, and `permissions` and `role` kept when the new ones are falsy. */
  function Merge(existing: Option<Record>, userData: Record): (r: Result<Record>)
    ensures r.TypeError? <==>
              existing.None? && (Get(userData, "password") == Masked
                                 || !Truthy(Get(userData, "permissions"))
                                 || !Truthy(Get(userData, "role")))
    ensures r.Ok? ==> forall k :: k !in {"password", "permissions", "role"} ==>
              Get(r.value, k) == (if k in userData then userData[k]
                                  else if existing.Some? then Get(existing.value, k) else Undefined)
    ensures r.Ok? && Get(userData, "password") == Masked ==>
              Get(r.value, "password") == Get(existing.value, "password")
    ensures r.Ok? && Get(userData, "password") != Masked ==>
              Get(r.value, "password") == Get(userData, "password")
    ensures r.Ok? && Truthy(Get(userData, "permissions")) ==>
              Get(r.value, "permissions") == Get(userData, "permissions")
    ensures r.Ok? && !Truthy(Get(userData, "permissions")) ==>
              Get(r.value, "permissions") == Get(existing.value, "permissions")
    ensures r.Ok? && Truthy(Get(userData, "role")) ==> Get(r.value, "role") == Get(userData, "role")
    ensures r.Ok? && !Truthy(Get(userData, "role")) ==> Get(r.value, "role") == Get(existing.value, "role")
  {
    var base := if existing.Some? then existing.value else map[];
    var password :=
      if Get(userData, "password") == Masked then Fallback(existing, "password")
      else Ok(Get(userData, "password"));
    var permissions :=
      if Truthy(Get(userData, "permissions")) then Ok(Get(userData, "permissions"))
      else Fallback(existing, "permissions");
    var role :=
      if Truthy(Get(userData, "role")) then Ok(Get(userData, "role")) else Fallback(existing, "role");
    if password.TypeError? || permissions.TypeError? || role.TypeError? then TypeError
    else Ok(base + userData + map["password" := password.value, "permissions" := permissions.value,
                                  "role" := role.value])
  }

  /** Applying the same update twice is the same as applying it once. */
  lemma MergeIdempotent(existing: Record, userData: Record)
    ensures Merge(Some(existing), userData).Ok?
    ensures Merge(Some(Merge(Some(existing), userData).value), userData) == Merge(Some(existing), userData)
  {
    var once := Merge(Some(existing), userData).value;
    var fixed := map["password" := once["password"], "permissions" := once["permissions"],
                     "role" := once["role"]];
    assert once == existing + userData + fixed;
    assert Merge(Some(once), userData).value == once + userData + fixed;
    assert once + userData + fixed == once;
  }

  /** An update that leaves the password out clears it: the state holds an
      `undefined` password and the stored copy has none. */
  lemma AbsentPasswordIsCleared(existing: Record, userData: Record)
    requires "password" !in userData
    ensures Merge(Some(existing), userData).Ok?
    ensures Get(Merge(Some(existing), userData).value, "password") == Undefined
    ensures "password" !in Json(Merge(Some(existing), userData).value)
  {
  }

  /** The provider's state: `user` in React state, `stored` the record saved
      under the `user` key of local storage, `route` the last navigation. */
  class AuthProvider {
    var user: Option<Record>
    var stored: Option<Record>
    const mockUsers: seq<Record>
    var route: string

    /** The initial user is the stored one, or none. */
    constructor (storedUser: Option<Record>, users: seq<Record>, initialRoute: string)
      ensures user == storedUser && stored == storedUser
      ensures mockUsers == users && route == initialRoute
    {
      user := storedUser;
      stored := storedUser;
      mockUsers := users;
      route := initialRoute;
    }

    /** login: the first matching user is signed in, stored and sent to the
        dashboard; with no match the only effect is the returned alert. */
    method Login(email: Value, password: Value) returns (alert: Option<string>)
      modifies this
      ensures FindUser(mockUsers, email, password).Some? ==>
                user == FindUser(mockUsers, email, password)
                && stored == Some(Json(user.value)) && route == "/dashboard" && alert == None
      ensures FindUser(mockUsers, email, password).None? ==>
                user == old(user) && stored == old(stored) && route == old(route)
                && alert == Some("Credenciales incorrectas")
    {
      var foundUser := FindUser(mockUsers, email, password);
      if foundUser.Some? {
        user := foundUser;
        stored := Some(Json(foundUser.value));
        route := "/dashboard";
        alert := None;
      } else {
        alert := Some("Credenciales incorrectas");
      }
    }

    /** logout: no user, nothing stored, back to the home page. */
    method Logout()
      modifies this
      ensures user == None && stored == None && route == "/"
    {
      user := None;
      stored := None;
      route := "/";
    }

    /** updateUser: merges `userData` into the stored record (or else the
        current user), puts the result in state and storage and returns true;
        a failed merge is rethrown and changes nothing. */
    method UpdateUser(userData: Record) returns (r: Result<bool>)
      modifies this
      ensures var merged := Merge(if old(stored).Some? then old(stored) else old(user), userData);
              (merged.TypeError? <==> r.TypeError?)
              && (merged.Ok? ==> r == Ok(true) && user == Some(merged.value)
                                 && stored == Some(Json(merged.value)) && route == "/dashboard")
              && (merged.TypeError? ==> user == old(user) && stored == old(stored) && route == old(route))
      ensures r.Ok? ==> forall k :: Get(stored.value, k) == Get(user.value, k)
    {
      var existingUser := if stored.Some? then stored else user;
      var updatedData := Merge(existingUser, userData);
      if updatedData.TypeError? {
        return TypeError;
      }
      user := Some(updatedData.value);
      stored := Some(Json(updatedData.value));
      route := "/dashboard";
      return Ok(true);
    }

    /** The effect on `user`: a stored record is loaded when no user is set. */
    method Sync()
      modifies this
      ensures old(stored).Some? && old(user).None? ==> user == old(stored)
      ensures !(old(stored).Some? && old(user).None?) ==> user == old(user)
      ensures stored == old(stored) && route == old(route)
    {
      if stored.Some? && user.None? {
        user := stored;
      }
    }
  }
}
