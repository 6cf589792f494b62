/** The home menu: which navigation buttons a signed-in user sees, derived
    from the role names in the token. */
module HomePage {
  import opened Wrappers
  import JsText
  import JwtService

  datatype Button = Button(title: string, path: string)

  const CustomerButtons: seq<Button> := [
    Button("Browse Products", "/products"),
    Button("My Orders", "/orders"),
    Button("Promotions & Offers", "/promotions")]
  const RdcButtons: seq<Button> := [
    Button("Inventory Management", "/inventory"),
    Button("Stock Transfers", "/stock-transfers"),
    Button("Order Fulfillment", "/order-fulfillment")]
  const LogisticsButtons: seq<Button> := [
    Button("Delivery Scheduling", "/delivery-scheduling"),
    Button("Track Deliveries", "/deliveries")]
  const FinanceButtons: seq<Button> := [
    Button("Billing & Invoices", "/billing"),
    Button("Payments", "/payments")]
  const ManagerButtons: seq<Button> := [
    Button("Dashboard", "/reports/dashboard"),
    Button("Reports", "/reports")]
  const AdminButtons: seq<Button> := [
    Button("User Management", "/admin/users"),
    Button("System Settings", "/admin/settings")]

  /** The role-group table, keyed by upper-case role name. */
  function Group(role: string): Option<seq<Button>>
  {
    if role == "CUSTOMER" then Some(CustomerButtons)
    else if role == "RDC" then Some(RdcButtons)
    else if role == "LOGISTICS" then Some(LogisticsButtons)
    else if role == "FINANCE" then Some(FinanceButtons)
    else if role == "MANAGER" then Some(ManagerButtons)
    else if role == "ADMIN" then Some(AdminButtons)
    else None
  }

  /** Whether `b` is in the group of `role`. */
  predicate InGroup(role: string, b: Button)
  {
    Group(role).Some? && b in Group(role).value
  }

  /** Every group flattened in the table's order. */
  const AllButtons: seq<Button> :=
    CustomerButtons + RdcButtons + LogisticsButtons + FinanceButtons + ManagerButtons + AdminButtons

  /** The buttons of one group are on the full menu. */
  lemma GroupInAllButtons(role: string, b: Button)
    requires Group(role).Some? && b in Group(role).value
    ensures b in AllButtons
  {
  }

  /** A button on the full menu belongs to some group. */
  lemma AllButtonsFromGroups(b: Button)
    requires b in AllButtons
    ensures exists role :: Group(role).Some? && b in Group(role).value
  {
    if b in CustomerButtons { assert Group("CUSTOMER").Some?; }
    else if b in RdcButtons { assert Group("RDC").Some?; }
    else if b in LogisticsButtons { assert Group("LOGISTICS").Some?; }
    else if b in FinanceButtons { assert Group("FINANCE").Some?; }
    else if b in ManagerButtons { assert Group("MANAGER").Some?; }
    else { assert b in AdminButtons; assert Group("ADMIN").Some?; }
  }

  function Normalize(roles: seq<string>): (r: seq<string>)
    ensures |r| == |roles| && forall i :: 0 <= i < |roles| ==> r[i] == JsText.ToUpper(roles[i])
  {
    seq(|roles|, i requires 0 <= i < |roles| => JsText.ToUpper(roles[i]))
  }

  /** The non-admin menu: each recognised role contributes its group, in role
      order; repeats are kept and unknown roles contribute nothing. */
  function ButtonsForRoles(roles: seq<string>): (r: seq<Button>)
    ensures (forall i :: 0 <= i < |roles| ==> Group(roles[i]).None?) ==> r == []
  {
    if roles == [] then []
    else (match Group(roles[0]) case Some(g) => g case None => []) + ButtonsForRoles(roles[1..])
  }

  /** The menu for a list of roles is the menus of its parts, concatenated. */
  lemma {:induction false} ButtonsForRolesAppend(a: seq<string>, b: seq<string>)
    ensures ButtonsForRoles(a + b) == ButtonsForRoles(a) + ButtonsForRoles(b)
  {
    if a == [] {
      assert a + b == b;
    } else {
      assert (a + b)[1..] == a[1..] + b;
      ButtonsForRolesAppend(a[1..], b);
    }
  }

  /** A button is on the non-admin menu exactly when one of the roles has it
      in its group. */
  lemma {:induction false} ButtonsForRolesMembership(roles: seq<string>, b: Button)
    ensures b in ButtonsForRoles(roles) <==> exists i :: 0 <= i < |roles| && InGroup(roles[i], b)
  {
    if roles != [] {
      ButtonsForRolesMembership(roles[1..], b);
      if exists i :: 0 <= i < |roles[1..]| && InGroup(roles[1..][i], b) {
        var i :| 0 <= i < |roles[1..]| && InGroup(roles[1..][i], b);
        assert roles[i + 1] == roles[1..][i];
      }
      if exists i :: 0 <= i < |roles| && InGroup(roles[i], b) {
        var i :| 0 <= i < |roles| && InGroup(roles[i], b);
        if i > 0 { assert roles[1..][i - 1] == roles[i]; }
      }
    }
  }

  /** Every button on the non-admin menu, and only those, comes from the
      group of one of the roles. */
  lemma ButtonsForRolesContents(roles: seq<string>)
    ensures forall b :: b in ButtonsForRoles(roles) <==> exists i :: 0 <= i < |roles| && InGroup(roles[i], b)
  {
    forall b
      ensures b in ButtonsForRoles(roles) <==> exists i :: 0 <= i < |roles| && InGroup(roles[i], b)
    {
      ButtonsForRolesMembership(roles, b);
    }
  }

  /** visibleButtons: an administrator sees every group; anyone else the
      groups of their own roles. */
  function VisibleButtons(roles: seq<string>): (r: seq<Button>)
    ensures (exists i :: 0 <= i < |roles| && JsText.ToUpper(roles[i]) == "ADMIN") ==> r == AllButtons
    ensures (forall i :: 0 <= i < |roles| ==> JsText.ToUpper(roles[i]) != "ADMIN") ==>
      forall b :: b in r <==> exists i :: 0 <= i < |roles| && InGroup(JsText.ToUpper(roles[i]), b)
    ensures (forall i :: 0 <= i < |roles| ==> JsText.ToUpper(roles[i]) != "ADMIN") ==> r == ButtonsForRoles(Normalize(roles))
  {
    var normalized := Normalize(roles);
    if "ADMIN" in normalized then AllButtons
    else
      ButtonsForRolesContents(normalized);
      ButtonsForRoles(normalized)
  }

  /** Whatever the roles, every visible button is one of the menu's. */
  lemma VisibleButtonsAreKnown(roles: seq<string>, b: Button)
    requires b in VisibleButtons(roles)
    ensures b in AllButtons
  {
    var normalized := Normalize(roles);
    if "ADMIN" !in normalized {
      assert exists i :: 0 <= i < |roles| && InGroup(JsText.ToUpper(roles[i]), b);
      var i :| 0 <= i < |roles| && InGroup(JsText.ToUpper(roles[i]), b);
      GroupInAllButtons(JsText.ToUpper(roles[i]), b);
    }
  }

  /** Role names are matched case-insensitively (ASCII): "admin" is an administrator. */
  lemma LowerCaseAdminSeesAll()
    ensures VisibleButtons(["admin"]) == AllButtons
  {
    assert Normalize(["admin"])[0] == "ADMIN";
  }

  /** A repeated role repeats its buttons. */
  lemma RepeatedRoleRepeatsButtons()
    ensures VisibleButtons(["customer", "CUSTOMER"]) == CustomerButtons + CustomerButtons
  {
    var n := Normalize(["customer", "CUSTOMER"]);
    assert n[0] == "CUSTOMER" && n[1] == "CUSTOMER";
    assert n == ["CUSTOMER", "CUSTOMER"];
  }

  /** What the page renders: nothing (and a redirect to the login page) without
      a token, otherwise the buttons and, when there are none, the
      no-permissions warning. */
  datatype Screen = RedirectToLogin | Menu(buttons: seq<Button>, noPermissionsWarning: bool)

  function Render(token: Option<string>, decode: JwtService.Decoder): (r: Screen)
    ensures JwtService.Falsy(token) <==> r.RedirectToLogin?
    ensures r.Menu? ==> r.buttons == VisibleButtons(JwtService.Roles(token, decode))
    ensures r.Menu? ==> (r.noPermissionsWarning <==> r.buttons == [])
  {
    if JwtService.Falsy(token) then RedirectToLogin
    else
      var buttons := VisibleButtons(JwtService.Roles(token, decode));
      Menu(buttons, buttons == [])
  }

  /** handleLogout: the token is removed and the login page shown. */
  function Logout(store: JwtService.TokenStore, decode: JwtService.Decoder): (r: (JwtService.TokenStore, Screen))
    ensures r.0.token.None? && r.1.RedirectToLogin?
    ensures r.1 == Render(r.0.token, decode)
  {
    var cleared := JwtService.ClearToken(store);
    (cleared, Render(cleared.token, decode))
  }
}
