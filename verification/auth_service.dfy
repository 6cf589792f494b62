/** The login decision: the user-with-roles query and the password check,
    then the token claims. Password hashing and token signing are library
    calls and enter as parameters. */
module AuthService {
  import opened Wrappers

  datatype User = User(userId: string, employeeId: string, email: string, passwordHash: string)
  datatype UserRole = UserRole(userId: string, roleId: int)
  datatype Role = Role(roleId: int, roleName: string)

  /** The `Users`, `UserRoles` and `Roles` tables. */
  datatype UserDb = UserDb(users: seq<User>, userRoles: seq<UserRole>, roles: seq<Role>)

  /** One row of the login query: the user's columns repeated per role. */
  datatype LoginRow = LoginRow(userId: string, employeeId: string, email: string, passwordHash: string, roleName: string)

  /** The claims signed into the token. */
  datatype Claims = Claims(userId: string, employeeId: string, email: string, roles: seq<string>)

  datatype LoginResult = LoginResult(token: string)

  const InvalidCredentials := "Invalid email or password"

  /** The row the query selects for a user joined to a role. */
  function RowOf(u: User, role: Role): LoginRow
  {
    LoginRow(u.userId, u.employeeId, u.email, u.passwordHash, role.roleName)
  }

  /** `JOIN Roles r ON ur.RoleId = r.RoleId` for one user-role link. */
  function RowsForLink(u: User, link: UserRole, roles: seq<Role>): (r: seq<LoginRow>)
    ensures forall i :: 0 <= i < |r| ==> r[i].userId == u.userId && r[i].email == u.email
  {
    if roles == [] then []
    else
      (if roles[0].roleId == link.roleId then [RowOf(u, roles[0])] else [])
      + RowsForLink(u, link, roles[1..])
  }

  /** The join conditions, stated independently of the nested loops above:
      some role matches the link's RoleId. */
  ghost predicate LinkYields(u: User, link: UserRole, roles: seq<Role>, row: LoginRow)
  {
    exists m :: 0 <= m < |roles| && roles[m].roleId == link.roleId && row == RowOf(u, roles[m])
  }

  /** Some link of the user's UserId joins to a role giving the row. */
  ghost predicate UserYields(u: User, links: seq<UserRole>, roles: seq<Role>, row: LoginRow)
  {
    exists k :: 0 <= k < |links| && links[k].userId == u.userId && LinkYields(u, links[k], roles, row)
  }

  /** Some user with that email joins through a link to a role giving the row. */
  ghost predicate Joined(db: UserDb, email: string, row: LoginRow)
  {
    exists j :: 0 <= j < |db.users| && db.users[j].email == email && UserYields(db.users[j], db.userRoles, db.roles, row)
  }

  lemma {:induction false} RowsForLinkExact(u: User, link: UserRole, roles: seq<Role>)
    ensures forall row :: row in RowsForLink(u, link, roles) <==> LinkYields(u, link, roles, row)
  {
    if roles != [] {
      RowsForLinkExact(u, link, roles[1..]);
      forall row ensures row in RowsForLink(u, link, roles) <==> LinkYields(u, link, roles, row) {
        if row in RowsForLink(u, link, roles) && row !in RowsForLink(u, link, roles[1..]) {
          assert roles[0].roleId == link.roleId && row == RowOf(u, roles[0]);
        }
        if row in RowsForLink(u, link, roles[1..]) {
          var m :| 0 <= m < |roles[1..]| && roles[1..][m].roleId == link.roleId && row == RowOf(u, roles[1..][m]);
          assert roles[m + 1] == roles[1..][m];
        }
        if LinkYields(u, link, roles, row) {
          var m :| 0 <= m < |roles| && roles[m].roleId == link.roleId && row == RowOf(u, roles[m]);
          if m > 0 {
            assert roles[1..][m - 1] == roles[m];
          }
        }
      }
    }
  }

  lemma {:induction false} RowsForUserExact(u: User, links: seq<UserRole>, roles: seq<Role>)
    ensures forall row :: row in RowsForUser(u, links, roles) <==> UserYields(u, links, roles, row)
  {
    if links != [] {
      RowsForUserExact(u, links[1..], roles);
      RowsForLinkExact(u, links[0], roles);
      forall row ensures row in RowsForUser(u, links, roles) <==> UserYields(u, links, roles, row) {
        if row in RowsForUser(u, links[1..], roles) {
          var k :| 0 <= k < |links[1..]| && links[1..][k].userId == u.userId && LinkYields(u, links[1..][k], roles, row);
          assert links[k + 1] == links[1..][k];
        }
        if UserYields(u, links, roles, row) {
          var k :| 0 <= k < |links| && links[k].userId == u.userId && LinkYields(u, links[k], roles, row);
          if k > 0 {
            assert links[1..][k - 1] == links[k];
          }
        }
      }
    }
  }

  lemma {:induction false} RowsForUsersExact(users: seq<User>, db: UserDb, email: string)
    ensures forall row :: row in RowsForUsers(users, db, email) <==>
      exists j :: 0 <= j < |users| && users[j].email == email && UserYields(users[j], db.userRoles, db.roles, row)
  {
    if users != [] {
      RowsForUsersExact(users[1..], db, email);
      RowsForUserExact(users[0], db.userRoles, db.roles);
      forall row ensures row in RowsForUsers(users, db, email) <==>
        exists j :: 0 <= j < |users| && users[j].email == email && UserYields(users[j], db.userRoles, db.roles, row)
      {
        if row in RowsForUsers(users[1..], db, email) {
          var j :| 0 <= j < |users[1..]| && users[1..][j].email == email && UserYields(users[1..][j], db.userRoles, db.roles, row);
          assert users[j + 1] == users[1..][j];
        }
        if exists j :: 0 <= j < |users| && users[j].email == email && UserYields(users[j], db.userRoles, db.roles, row) {
          var j :| 0 <= j < |users| && users[j].email == email && UserYields(users[j], db.userRoles, db.roles, row);
          if j > 0 {
            assert users[1..][j - 1] == users[j];
          }
        }
      }
    }
  }

  /** `JOIN UserRoles ur ON u.UserId = ur.UserId`, then the roles, for one user. */
  function RowsForUser(u: User, links: seq<UserRole>, roles: seq<Role>): (r: seq<LoginRow>)
    ensures forall i :: 0 <= i < |r| ==> r[i].userId == u.userId && r[i].email == u.email
    ensures (forall k :: 0 <= k < |links| ==> links[k].userId != u.userId) ==> r == []
  {
    if links == [] then []
    else
      (if links[0].userId == u.userId then RowsForLink(u, links[0], roles) else [])
      + RowsForUser(u, links[1..], roles)
  }

  function RowsForUsers(users: seq<User>, db: UserDb, email: string): (r: seq<LoginRow>)
    ensures forall i :: 0 <= i < |r| ==> r[i].email == email
    ensures (forall j, k :: 0 <= j < |users| && 0 <= k < |db.userRoles| && users[j].email == email ==>
               db.userRoles[k].userId != users[j].userId) ==> r == []
  {
    if users == [] then []
    else
      (if users[0].email == email then RowsForUser(users[0], db.userRoles, db.roles) else [])
      + RowsForUsers(users[1..], db, email)
  }

  /** getUserWithRolesByEmail: the inner join filtered by `u.Email`. */
  function UserWithRolesByEmail(db: UserDb, email: string): (r: seq<LoginRow>)
    ensures forall i :: 0 <= i < |r| ==> r[i].email == email
    ensures forall row :: row in r <==> Joined(db, email, row)
  {
    RowsForUsersExact(db.users, db, email);
    RowsForUsers(db.users, db, email)
  }

  /** Because the joins are inner joins, a user with no role links produces no
      rows at all. */
  lemma UserWithoutRolesHasNoRows(db: UserDb, email: string)
    requires forall j, k :: 0 <= j < |db.users| && 0 <= k < |db.userRoles| && db.users[j].email == email ==>
      db.userRoles[k].userId != db.users[j].userId
    ensures UserWithRolesByEmail(db, email) == []
  {
  }

  /** The claims: identity from the first row, and the role name of every row,
      in row order and without removing duplicates. */
  function ClaimsOf(rows: seq<LoginRow>): (c: Claims)
    requires rows != []
    ensures c.userId == rows[0].userId && c.employeeId == rows[0].employeeId && c.email == rows[0].email
    ensures |c.roles| == |rows| && forall i :: 0 <= i < |rows| ==> c.roles[i] == rows[i].roleName
  {
    Claims(rows[0].userId, rows[0].employeeId, rows[0].email, seq(|rows|, i requires 0 <= i < |rows| => rows[i].roleName))
  }

  /** login: `queryFault` is the message of a failed connection or query,
      `passwordMatches(password, hash)` the hash comparison and `sign` the
      token library, which may throw. */
  function Login(db: UserDb, queryFault: Option<string>, email: string, password: string,
                 passwordMatches: (string, string) -> bool, sign: Claims -> Result<string, string>)
    : (r: Result<LoginResult, string>)
    ensures queryFault.Some? ==> r == Err(queryFault.value)
    ensures r.Ok? ==> queryFault.None?
    ensures queryFault.None? && UserWithRolesByEmail(db, email) == [] ==> r == Err(InvalidCredentials)
    ensures var rows := UserWithRolesByEmail(db, email);
      queryFault.None? && rows != [] && !passwordMatches(password, rows[0].passwordHash) ==> r == Err(InvalidCredentials)
    ensures var rows := UserWithRolesByEmail(db, email);
      queryFault.None? && rows != [] && passwordMatches(password, rows[0].passwordHash) && sign(ClaimsOf(rows)).Ok? ==>
        r == Ok(LoginResult(sign(ClaimsOf(rows)).value))
    ensures r.Ok? ==>
      var rows := UserWithRolesByEmail(db, email);
      && rows != []
      && passwordMatches(password, rows[0].passwordHash)
      && sign(ClaimsOf(rows)) == Ok(r.value.token)
    ensures var rows := UserWithRolesByEmail(db, email);
      queryFault.None? && rows != [] && passwordMatches(password, rows[0].passwordHash) && sign(ClaimsOf(rows)).Err? ==>
        r == Err(sign(ClaimsOf(rows)).error)
  {
    if queryFault.Some? then Err(queryFault.value)
    else
    var records := UserWithRolesByEmail(db, email);
    if records == [] then Err(InvalidCredentials)
    else
      var user := records[0];
      if !passwordMatches(password, user.passwordHash) then Err(InvalidCredentials)
      else
        match sign(ClaimsOf(records))
        case Err(e) => Err(e)
        case Ok(token) => Ok(LoginResult(token))
  }

  /** An unknown email and a wrong password fail identically. */
  lemma BothFailuresAlike(db1: UserDb, db2: UserDb, email1: string, email2: string, password: string,
                          passwordMatches: (string, string) -> bool, sign: Claims -> Result<string, string>)
    requires UserWithRolesByEmail(db1, email1) == []
    requires var rows := UserWithRolesByEmail(db2, email2);
      rows != [] && !passwordMatches(password, rows[0].passwordHash)
    ensures Login(db1, None, email1, password, passwordMatches, sign) == Login(db2, None, email2, password, passwordMatches, sign)
  {
  }

  /** A user whose only account has no roles cannot log in, whatever the password. */
  lemma RolelessUserCannotLogIn(db: UserDb, email: string, password: string,
                                passwordMatches: (string, string) -> bool, sign: Claims -> Result<string, string>)
    requires forall j, k :: 0 <= j < |db.users| && 0 <= k < |db.userRoles| && db.users[j].email == email ==>
      db.userRoles[k].userId != db.users[j].userId
    ensures Login(db, None, email, password, passwordMatches, sign) == Err(InvalidCredentials)
  {
    UserWithoutRolesHasNoRows(db, email);
  }

  /** The converse: the only account with that email, linked to some role,
      logs in when the password matches its hash and the signer succeeds. */
  lemma UserWithRoleCanLogIn(db: UserDb, email: string, password: string, j: int, k: int, m: int,
                             passwordMatches: (string, string) -> bool, sign: Claims -> Result<string, string>)
    requires 0 <= j < |db.users| && db.users[j].email == email
    requires forall i :: 0 <= i < |db.users| && db.users[i].email == email ==> i == j
    requires 0 <= k < |db.userRoles| && db.userRoles[k].userId == db.users[j].userId
    requires 0 <= m < |db.roles| && db.roles[m].roleId == db.userRoles[k].roleId
    requires passwordMatches(password, db.users[j].passwordHash)
    requires UserWithRolesByEmail(db, email) != [] ==> sign(ClaimsOf(UserWithRolesByEmail(db, email))).Ok?
    ensures var rows := UserWithRolesByEmail(db, email);
      && rows != []
      && ClaimsOf(rows).userId == db.users[j].userId
      && db.roles[m].roleName in ClaimsOf(rows).roles
      && Login(db, None, email, password, passwordMatches, sign) == Ok(LoginResult(sign(ClaimsOf(rows)).value))
  {
    var rows := UserWithRolesByEmail(db, email);
    var row := RowOf(db.users[j], db.roles[m]);
    assert LinkYields(db.users[j], db.userRoles[k], db.roles, row);
    assert UserYields(db.users[j], db.userRoles, db.roles, row);
    assert Joined(db, email, row);
    assert row in rows;
    assert rows[0] in rows;
    var i :| 0 <= i < |db.users| && db.users[i].email == email && UserYields(db.users[i], db.userRoles, db.roles, rows[0]);
    assert i == j;
    var k' :| 0 <= k' < |db.userRoles| && db.userRoles[k'].userId == db.users[j].userId
      && LinkYields(db.users[j], db.userRoles[k'], db.roles, rows[0]);
    assert rows[0].passwordHash == db.users[j].passwordHash;
    var p :| 0 <= p < |rows| && rows[p] == row;
    assert ClaimsOf(rows).roles[p] == db.roles[m].roleName;
  }
}
