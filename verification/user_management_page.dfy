/** The user administration page: a local list of users, a create form and
    an active/inactive switch per user. Nothing is sent to a server. */
module UserManagementPage {
  import JsText

  datatype User = User(id: int, name: string, email: string, role: string, status: string)

  const Roles: seq<string> := ["Admin", "Manager", "Clerk", "Viewer"]

  const SeedUsers: seq<User> := [
    User(1, "Nimal Perera", "nimal@islandlink.lk", "Admin", "Active"),
    User(2, "Kamal Silva", "kamal@islandlink.lk", "Manager", "Active"),
    User(3, "Anil Wickramasingha", "anil@islandlink.lk", "Clerk", "Inactive")]

  datatype UsersState = UsersState(users: seq<User>, name: string, email: string, role: string, msg: string)

  const Initial := UsersState(SeedUsers, "", "", "", "")

  predicate DistinctIds(users: seq<User>)
  {
    forall i, j :: 0 <= i < j < |users| ==> users[i].id != users[j].id
  }

  lemma SeedIdsDistinct()
    ensures DistinctIds(SeedUsers)
  {
  }

  /** handleAdd: every field must be non-empty (they are not trimmed); the
      new user, active and identified by the clock `now`, goes first and the
      form is cleared. */
  function Add(st: UsersState, now: int): (r: UsersState)
    ensures st.name == "" || st.email == "" || st.role == "" ==> r == st.(msg := "Please fill all fields.")
    ensures st.name != "" && st.email != "" && st.role != "" ==>
      && r.users == [User(now, st.name, st.email, st.role, "Active")] + st.users
      && r.name == "" && r.email == "" && r.role == ""
      && r.msg == "User created (demo)."
  {
    if st.name == "" || st.email == "" || st.role == "" then st.(msg := "Please fill all fields.")
    else UsersState([User(now, st.name, st.email, st.role, "Active")] + st.users, "", "", "", "User created (demo).")
  }

  /** Ids stay distinct as long as the clock is past every existing id. */
  lemma AddKeepsIdsDistinct(st: UsersState, now: int)
    requires DistinctIds(st.users)
    requires forall i :: 0 <= i < |st.users| ==> st.users[i].id < now
    ensures DistinctIds(Add(st, now).users)
  {
    var r := Add(st, now).users;
    if r != st.users {
      forall i, j | 0 <= i < j < |r| ensures r[i].id != r[j].id {
        assert r[j] == st.users[j - 1];
        if i > 0 { assert r[i] == st.users[i - 1]; }
      }
    }
  }

  /** Two users created within the same millisecond share an id. */
  lemma SameInstantSharesId(st: UsersState, now: int)
    requires st.name != "" && st.email != "" && st.role != ""
    ensures var once := Add(st, now);
      var twice := Add(once.(name := st.name, email := st.email, role := st.role), now);
      !DistinctIds(twice.users)
  {
    var once := Add(st, now);
    var twice := Add(once.(name := st.name, email := st.email, role := st.role), now);
    assert twice.users[0].id == twice.users[1].id;
  }

  function Flip(status: string): (r: string)
    ensures status == "Active" <==> r == "Inactive"
    ensures r in {"Active", "Inactive"}
  {
    if status == "Active" then "Inactive" else "Active"
  }

  /** toggleStatus: every user with the id flips between active and inactive;
      any other status becomes active. */
  function ToggleStatus(users: seq<User>, id: int): (r: seq<User>)
    ensures |r| == |users|
    ensures forall i :: 0 <= i < |users| ==>
      if users[i].id == id then r[i] == users[i].(status := Flip(users[i].status)) else r[i] == users[i]
  {
    seq(|users|, i requires 0 <= i < |users| =>
      if users[i].id == id then users[i].(status := Flip(users[i].status)) else users[i])
  }

  /** An id not in the list changes nothing. */
  lemma ToggleAbsentIsNoOp(users: seq<User>, id: int)
    requires forall i :: 0 <= i < |users| ==> users[i].id != id
    ensures ToggleStatus(users, id) == users
  {
  }

  /** Toggling twice restores every user whose status was active or inactive. */
  lemma ToggleTwiceRestores(users: seq<User>, id: int)
    requires forall i :: 0 <= i < |users| ==> users[i].status in {"Active", "Inactive"}
    ensures ToggleStatus(ToggleStatus(users, id), id) == users
  {
    var twice := ToggleStatus(ToggleStatus(users, id), id);
    assert forall i :: 0 <= i < |users| ==> twice[i] == users[i];
  }

  /** handleResetPwd: only a message. */
  function ResetPasswordMessage(u: User): (r: string)
    ensures JsText.OccursAt(r, u.email, |"Password reset link sent to "|)
    ensures |r| == |"Password reset link sent to "| + |u.email| + |" (demo)."|
    ensures r[..|"Password reset link sent to "|] == "Password reset link sent to "
    ensures r[|r| - |" (demo)."|..] == " (demo)."
  {
    "Password reset link sent to " + u.email + " (demo)."
  }
}
