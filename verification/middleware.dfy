/** The route guard (`middleware.ts`): for the matched paths it lets through
    only requests that carry a token; then non-admins are kept out of `/admin`
    and managers are kept inside `/orders`. The token itself is built by the
    `jwt` callback of the sign-in configuration. */
module Middleware {
  import opened Common
  import opened Tables

  /** The role flags the guard reads from the token; a flag that is not in the
      token reads as false. */
  datatype Token = Token(isAdmin: bool, isManager: bool)

  datatype Decision = Next | Redirect(to: string) | SignIn

  /** The `middleware` function: the admin rule first, then the manager rule. */
  function Decide(t: Token, pathname: string): Decision {
    if StartsWith(pathname, "/admin") && !t.isAdmin then Redirect("/")
    else if t.isManager && pathname != "/orders" && !StartsWith(pathname, "/orders") then Redirect("/orders")
    else Next
  }

  /** The `authorized` callback: any token will do. */
  predicate Authorized(token: Option<Token>) {
    token.Some?
  }

  /** `path` is `base` or lies below it (`base/:path*`). */
  predicate Below(path: string, base: string) {
    path == base || StartsWith(path, base + "/")
  }

  /** The `matcher` of the configuration. */
  predicate Matched(pathname: string) {
    pathname == "/" || Below(pathname, "/admin") || Below(pathname, "/orders") || Below(pathname, "/products")
  }

  /** What the guard does with a request. */
  function Guard(token: Option<Token>, pathname: string): Decision {
    if !Matched(pathname) then Next
    else if !Authorized(token) then SignIn
    else Decide(token.value, pathname)
  }

  // ---------------------------------------------------------------------------

  /** A request without a token to a guarded path is sent to sign in. */
  lemma NoTokenSignsIn(pathname: string)
    requires Matched(pathname)
    ensures Guard(None, pathname) == SignIn
  {
  }

  /** Any non-admin on a path starting with `/admin` goes to `/`, managers included:
      the admin rule comes first. */
  lemma NonAdminKeptOutOfAdmin(t: Token, pathname: string)
    requires StartsWith(pathname, "/admin") && !t.isAdmin
    ensures Decide(t, pathname) == Redirect("/")
  {
  }

  /** A manager, admin or not, on a path outside `/orders` goes to `/orders`,
      unless the admin rule already sent a non-admin to `/`. */
  lemma ManagerKeptInOrders(t: Token, pathname: string)
    requires t.isManager && !StartsWith(pathname, "/orders")
    requires t.isAdmin || !StartsWith(pathname, "/admin")
    ensures Decide(t, pathname) == Redirect("/orders")
  {
  }

  /** A request passes exactly when neither rule applies. */
  lemma PassesIffNoRuleApplies(t: Token, pathname: string)
    ensures Decide(t, pathname) == Next <==>
      (t.isAdmin || !StartsWith(pathname, "/admin")) && (!t.isManager || StartsWith(pathname, "/orders"))
  {
    if pathname == "/orders" {
      assert StartsWith(pathname, "/orders");
    }
  }

  /** The rules without the `pathname !== "/orders"` test. */
  function DecideByPrefix(t: Token, pathname: string): Decision {
    if StartsWith(pathname, "/admin") && !t.isAdmin then Redirect("/")
    else if t.isManager && !StartsWith(pathname, "/orders") then Redirect("/orders")
    else Next
  }

  /** The `pathname !== "/orders"` test is redundant. */
  lemma ExactOrdersTestRedundant(t: Token, pathname: string)
    ensures Decide(t, pathname) == DecideByPrefix(t, pathname)
  {
    if pathname == "/orders" {
      assert StartsWith(pathname, "/orders");
    }
  }

  /** Where the browser is after one pass of the guard. */
  function Follow(t: Token, pathname: string): string {
    match Decide(t, pathname)
    case Redirect(to) => to
    case _ => pathname
  }

  /** Redirects settle: after at most two redirects every signed-in user passes.
      `/` is a fixed point for non-managers and `/orders` for everyone. */
  lemma RedirectsSettle(t: Token, pathname: string)
    ensures Decide(t, pathname).Redirect? ==> Matched(Decide(t, pathname).to)
    ensures Decide(t, Follow(t, Follow(t, pathname))) == Next
  {
    assert !StartsWith("/", "/admin") && !StartsWith("/", "/orders");
    assert "/orders"[..|"/admin"|][1] != "/admin"[1];
    assert StartsWith("/orders", "/orders");
  }

  // ---------------------------------------------------------------------------
  // The token and the manager flag

  /** As written, the `jwt` callback copies the user's id and `isAdmin` into the
      token but not `isManager`, so the guard always reads the manager flag as
      false. */
  function TokenFor(u: User): Token {
    Token(u.isAdmin, false)
  }

  /** Consequently no signed-in user, manager or not, is ever sent to `/orders`. */
  lemma ManagerRuleNeverFires(u: User, pathname: string)
    ensures Decide(TokenFor(u), pathname) != Redirect("/orders")
  {
  }

  /** For example a manager asking for the product list is let through. */
  lemma ManagerReachesProducts()
    ensures var manager := User("Mia", "mia@example.com", "pw", "555", true, false);
      Guard(Some(TokenFor(manager)), "/products") == Next
  {
    assert Below("/products", "/products");
    assert "/products"[..|"/admin"|][1] != "/admin"[1];
  }

  /** Corrected: the callback also copies `isManager`. */
  function TokenWithRoles(u: User): Token {
    Token(u.isAdmin, u.isManager)
  }

  /** With the corrected token, a manager outside `/orders` is redirected there
      (a non-admin manager on `/admin` still goes to `/` first). */
  lemma ManagerRuleFiresWithRoles(u: User, pathname: string)
    requires u.isManager && !StartsWith(pathname, "/orders")
    requires u.isAdmin || !StartsWith(pathname, "/admin")
    ensures Decide(TokenWithRoles(u), pathname) == Redirect("/orders")
  {
  }
}
