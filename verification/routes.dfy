/** The policy table binding every protected endpoint to its gates. Each
    router first runs `requireAuth`, then `requireRole` with the router's
    role list; the store-scoped endpoints then run `requireStoreAccess` with
    the endpoint's staff-role list. Express runs them in that order and the
    first gate that calls `next(err)` decides the answer. Store-scoped paths
    carry `:storeId`, a non-empty path segment, so the store id always comes
    from the path. */
module Routes {
  import opened Basics
  import opened Model
  import opened Auth

  datatype Route =
    | AddCartItem | ViewCart | SubmitCheckout
    | ListSections | CreateSection | CreateProduct | CreateVariant | UpsertStaff | ListStoreOrders
    | ListPromotions | CreatePromotion
    | AdminListPromotions | DecidePromotion

  /** Whether an endpoint runs `requireStoreAccess`, and with which staff roles. */
  datatype StoreCheck = NoStoreCheck | StoreAccess(staffRoles: Option<seq<StaffRole>>)

  datatype Policy = Policy(roles: seq<Role>, store: StoreCheck)

  predicate IsTenantRoute(r: Route) {
    r.ListSections? || r.CreateSection? || r.CreateProduct? || r.CreateVariant?
    || r.UpsertStaff? || r.ListStoreOrders?
  }

  predicate IsPromotionRoute(r: Route) {
    r.ListPromotions? || r.CreatePromotion?
  }

  predicate IsAdminRoute(r: Route) {
    r.AdminListPromotions? || r.DecidePromotion?
  }

  predicate IsCheckoutRoute(r: Route) {
    r.AddCartItem? || r.ViewCart? || r.SubmitCheckout?
  }

  /** The role list of the router an endpoint is mounted on. */
  function RouterRoles(r: Route): (roles: seq<Role>)
    ensures IsCheckoutRoute(r) ==> roles == [Customer, Admin]
    ensures IsTenantRoute(r) || IsPromotionRoute(r) ==> roles == [Admin, Tenant, Staff]
    ensures IsAdminRoute(r) ==> roles == [Admin]
  {
    match r
    case AddCartItem | ViewCart | SubmitCheckout => [Customer, Admin]
    case AdminListPromotions | DecidePromotion => [Admin]
    case _ => [Admin, Tenant, Staff]
  }

  /** The staff-role restriction of each store-scoped endpoint. */
  function StoreCheckOf(r: Route): (c: StoreCheck)
    ensures c.StoreAccess? <==> IsTenantRoute(r) || IsPromotionRoute(r)
  {
    match r
    case ListSections => StoreAccess(None)
    case CreateSection => StoreAccess(Some([Manager, Products]))
    case CreateProduct => StoreAccess(Some([Manager, Products]))
    case CreateVariant => StoreAccess(Some([Manager, Products]))
    case UpsertStaff => StoreAccess(Some([Manager]))
    case ListStoreOrders => StoreAccess(Some([Manager, Sales]))
    case ListPromotions => StoreAccess(None)
    case CreatePromotion => StoreAccess(Some([Manager]))
    case _ => NoStoreCheck
  }

  function PolicyOf(r: Route): Policy {
    Policy(RouterRoles(r), StoreCheckOf(r))
  }

  /** Two middlewares in sequence: the first refusal is the answer. */
  function Chain(first: Gate, second: Gate): (g: Gate)
    ensures g.Allow? <==> first.Allow? && second.Allow?
    ensures first.Deny? ==> g == first
    ensures first.Allow? ==> g == second
  {
    if first.Deny? then first else second
  }

  /** The gates after `requireAuth`, for an authenticated caller; `storeId`
      is the path's store id and is ignored by endpoints without one. */
  function Authorize(r: Route, ctx: AuthContext, storeId: Id): (g: Gate)
    ensures RequireRole(RouterRoles(r), Some(ctx)).Deny? ==> g == RequireRole(RouterRoles(r), Some(ctx))
    ensures RequireRole(RouterRoles(r), Some(ctx)).Allow? && StoreCheckOf(r).NoStoreCheck? ==> g == Allow
    ensures RequireRole(RouterRoles(r), Some(ctx)).Allow? && StoreCheckOf(r).StoreAccess? ==>
      g == RequireStoreAccess(StoreCheckOf(r).staffRoles, Some(ctx), StoreIdSources(Some(storeId), None, None))
  {
    var policy := PolicyOf(r);
    var storeGate :=
      match policy.store
      case NoStoreCheck => Allow
      case StoreAccess(staffRoles) =>
        RequireStoreAccess(staffRoles, Some(ctx), StoreIdSources(Some(storeId), None, None));
    Chain(RequireRole(policy.roles, Some(ctx)), storeGate)
  }

  /** The whole middleware stack in front of a handler: on success, the
      context the handler sees as `req.auth`. */
  function Guard(r: Route, header: Option<string>, verify: string -> Option<Id>, db: Db, storeId: Id): (res: Result<AuthContext>)
    ensures RequireAuth(header, verify, db).Err? ==> res == RequireAuth(header, verify, db)
    ensures res.Ok? <==> RequireAuth(header, verify, db).Ok? && Authorize(r, RequireAuth(header, verify, db).value, storeId).Allow?
    ensures res.Ok? ==> res == RequireAuth(header, verify, db)
    ensures RequireAuth(header, verify, db).Ok? && res.Err? ==>
      Authorize(r, RequireAuth(header, verify, db).value, storeId) == Deny(res.error)
  {
    match RequireAuth(header, verify, db)
    case Err(e) => Err(e)
    case Ok(ctx) =>
      match Authorize(r, ctx, storeId)
      case Allow => Ok(ctx)
      case Deny(e) => Err(e)
  }

  // ---------------------------------------------------------------------
  // Properties of the table

  /** No request without a bearer token reaches any handler: it is 401. */
  lemma NoTokenNoEntry(r: Route, verify: string -> Option<Id>, db: Db, storeId: Id)
    ensures Guard(r, None, verify, db, storeId) == Err(Fail(401, "Missing Bearer token"))
  {
  }

  /** Every tenant and promotion endpoint is reached only by a caller holding
      ADMIN, TENANT or STAFF; the rest are refused by the role gate before
      any store check. */
  lemma StoreRoutesNeedRole(r: Route, ctx: AuthContext, storeId: Id)
    requires IsTenantRoute(r) || IsPromotionRoute(r)
    ensures Authorize(r, ctx, storeId).Allow? ==> Admin in ctx.roles || Tenant in ctx.roles || Staff in ctx.roles
    ensures Admin !in ctx.roles && Tenant !in ctx.roles && Staff !in ctx.roles ==>
      Authorize(r, ctx, storeId) == Deny(Fail(403, "Forbidden: role not allowed"))
  {
  }

  /** The admin endpoints are reached exactly by ADMIN callers. */
  lemma AdminRoutesAdminOnly(r: Route, ctx: AuthContext, storeId: Id)
    requires IsAdminRoute(r)
    ensures Authorize(r, ctx, storeId).Allow? <==> Admin in ctx.roles
    ensures Admin !in ctx.roles ==> Authorize(r, ctx, storeId) == Deny(Fail(403, "Forbidden: role not allowed"))
  {
  }

  /** The cart and checkout endpoints are reached exactly by CUSTOMER or ADMIN callers. */
  lemma CheckoutRoutesCustomerOrAdmin(r: Route, ctx: AuthContext, storeId: Id)
    requires IsCheckoutRoute(r)
    ensures Authorize(r, ctx, storeId).Allow? <==> Customer in ctx.roles || Admin in ctx.roles
  {
  }

  /** ADMIN passes every gate of every endpoint, for every store. */
  lemma AdminPassesEverywhere(r: Route, ctx: AuthContext, storeId: Id)
    requires Admin in ctx.roles
    ensures Authorize(r, ctx, storeId) == Allow
  {
  }

  /** A TENANT who owns the store passes every store-scoped endpoint, whatever
      its staff-role restriction. */
  lemma OwnerPassesStoreRoutes(r: Route, ctx: AuthContext, storeId: Id)
    requires IsTenantRoute(r) || IsPromotionRoute(r)
    requires Tenant in ctx.roles && storeId in ctx.storeIdsAsOwner
    ensures Authorize(r, ctx, storeId) == Allow
  {
  }

  /** Store isolation: a caller who is not ADMIN, does not own the store and
      has no enabled staff link to it is refused by every store-scoped
      endpoint, with 403, whatever it holds for other stores. */
  lemma StoreIsolation(r: Route, ctx: AuthContext, storeId: Id)
    requires IsTenantRoute(r) || IsPromotionRoute(r)
    requires Admin !in ctx.roles && storeId !in ctx.storeIdsAsOwner
    requires forall g :: g in ctx.storeIdsAsStaff ==> g.storeId != storeId
    ensures Authorize(r, ctx, storeId).Deny?
    ensures Authorize(r, ctx, storeId).error.status == 403
  {
  }

  /** A caller whose only role is CUSTOMER reaches no tenant, promotion or
      admin endpoint. */
  lemma CustomerOnlyShutOut(r: Route, ctx: AuthContext, storeId: Id)
    requires !IsCheckoutRoute(r)
    requires forall x :: x in ctx.roles ==> x == Customer
    ensures Authorize(r, ctx, storeId) == Deny(Fail(403, "Forbidden: role not allowed"))
  {
    assert Admin !in ctx.roles && Tenant !in ctx.roles && Staff !in ctx.roles;
  }

  /** The staff roles each store-scoped endpoint lets through; `None` is
      every role. */
  function PermittedStaffRoles(r: Route): (s: Option<set<StaffRole>>)
    requires IsTenantRoute(r) || IsPromotionRoute(r)
  {
    match r
    case ListSections | ListPromotions => None
    case CreateSection | CreateProduct | CreateVariant => Some({Manager, Products})
    case UpsertStaff | CreatePromotion => Some({Manager})
    case _ => Some({Manager, Sales})
  }

  /** For a STAFF caller who is neither ADMIN nor owner, the decision of a
      store-scoped endpoint is made by the caller's first enabled link to
      the store: allowed exactly when the endpoint permits that link's role. */
  lemma StaffDecision(r: Route, ctx: AuthContext, storeId: Id, link: StaffRole)
    requires IsTenantRoute(r) || IsPromotionRoute(r)
    requires Staff in ctx.roles && Admin !in ctx.roles && storeId !in ctx.storeIdsAsOwner
    requires FindGrant(ctx.storeIdsAsStaff, storeId) == Some(StaffGrant(storeId, link))
    ensures Authorize(r, ctx, storeId).Allow? <==>
      PermittedStaffRoles(r).None? || link in PermittedStaffRoles(r).value
    ensures Authorize(r, ctx, storeId).Deny? ==>
      Authorize(r, ctx, storeId) == Deny(Fail(403, "Forbidden: insufficient staff role"))
  {
    var src := StoreIdSources(Some(storeId), None, None);
    StaffGate(StoreCheckOf(r).staffRoles, ctx, storeId, link);
    PermittedMatchesTable(r);
    assert Staff in RouterRoles(r);
    assert Authorize(r, ctx, storeId) == RequireStoreAccess(StoreCheckOf(r).staffRoles, Some(ctx), src);
  }

  /** The staff-role gate for a caller who is neither ADMIN nor owner and
      whose first grant for the store has role `link`. */
  lemma StaffGate(staffRoles: Option<seq<StaffRole>>, ctx: AuthContext, storeId: Id, link: StaffRole)
    requires Admin !in ctx.roles && storeId !in ctx.storeIdsAsOwner
    requires FindGrant(ctx.storeIdsAsStaff, storeId) == Some(StaffGrant(storeId, link))
    ensures var g := RequireStoreAccess(staffRoles, Some(ctx), StoreIdSources(Some(storeId), None, None));
      && (g.Allow? <==> staffRoles.None? || link in staffRoles.value)
      && (g.Deny? ==> g == Deny(Fail(403, "Forbidden: insufficient staff role")))
  {
    var i := FirstGrantIndex(ctx.storeIdsAsStaff, storeId);
    assert i < |ctx.storeIdsAsStaff| && ctx.storeIdsAsStaff[i].role == link;
  }

  /** The sets above are the staff-role lists of the route table. */
  lemma PermittedMatchesTable(r: Route)
    requires IsTenantRoute(r) || IsPromotionRoute(r)
    ensures PermittedStaffRoles(r).None? <==> StoreCheckOf(r).staffRoles.None?
    ensures PermittedStaffRoles(r).Some? ==>
      forall x :: x in PermittedStaffRoles(r).value <==> x in StoreCheckOf(r).staffRoles.value
  {
  }

  /** SALES staff cannot create sections, products or variants. */
  lemma SalesCannotManageCatalogue(r: Route, ctx: AuthContext, storeId: Id)
    requires r.CreateSection? || r.CreateProduct? || r.CreateVariant?
    requires Staff in ctx.roles && Admin !in ctx.roles && storeId !in ctx.storeIdsAsOwner
    requires FindGrant(ctx.storeIdsAsStaff, storeId) == Some(StaffGrant(storeId, Sales))
    ensures Authorize(r, ctx, storeId) == Deny(Fail(403, "Forbidden: insufficient staff role"))
  {
    assert PermittedStaffRoles(r) == Some({Manager, Products});
    StaffDecision(r, ctx, storeId, Sales);
  }

  /** PRODUCTS staff cannot list the store's orders, manage staff or create promotions. */
  lemma ProductsCannotSeeOrders(r: Route, ctx: AuthContext, storeId: Id)
    requires r.ListStoreOrders? || r.UpsertStaff? || r.CreatePromotion?
    requires Staff in ctx.roles && Admin !in ctx.roles && storeId !in ctx.storeIdsAsOwner
    requires FindGrant(ctx.storeIdsAsStaff, storeId) == Some(StaffGrant(storeId, Products))
    ensures Authorize(r, ctx, storeId) == Deny(Fail(403, "Forbidden: insufficient staff role"))
  {
    assert PermittedStaffRoles(r).Some? && Products !in PermittedStaffRoles(r).value;
    StaffDecision(r, ctx, storeId, Products);
  }

  /** Any enabled staff link to the store, whatever its role, opens the
      section and promotion listings. */
  lemma AnyLinkCanList(r: Route, ctx: AuthContext, storeId: Id, link: StaffRole)
    requires r.ListSections? || r.ListPromotions?
    requires Staff in ctx.roles
    requires StaffGrant(storeId, link) in ctx.storeIdsAsStaff
    ensures Authorize(r, ctx, storeId) == Allow
  {
  }
}
