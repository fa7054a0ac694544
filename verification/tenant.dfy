/** The store back office: sections, products, variants with their
    inventory, staff links and the store's order list. Every handler here
    sits behind the tenant router's gates (see module Routes); the path's
    store id reaches the handler as `storeId`. A request body the schema
    rejects is answered with `ValidationFailed` and changes nothing. */
module Tenant {
  import opened Basics
  import opened Model
  import opened Auth
  import opened Cart

  // ---------------------------------------------------------------------
  // GET /stores/:storeId/sections

  /** The store's sections in table order (`where: { storeId }`). */
  function SectionsOf(sections: seq<Section>, storeId: Id): (r: seq<Section>)
    ensures forall s :: s in r <==> s in sections && s.storeId == storeId
  {
    if |sections| == 0 then []
    else (if sections[0].storeId == storeId then [sections[0]] else []) + SectionsOf(sections[1..], storeId)
  }

  predicate SortOrderAscending(ss: seq<Section>) {
    forall i, j :: 0 <= i < j < |ss| ==> ss[i].sortOrder <= ss[j].sortOrder
  }

  /** Places `x` after every section whose sort order is not larger. */
  function InsertBySortOrder(x: Section, ss: seq<Section>): (r: seq<Section>)
    requires SortOrderAscending(ss)
    ensures SortOrderAscending(r)
    ensures multiset(r) == multiset(ss) + multiset{x}
  {
    if |ss| == 0 || x.sortOrder < ss[0].sortOrder then
      assert forall i :: 0 <= i < |ss| ==> ss[0].sortOrder <= ss[i].sortOrder;
      [x] + ss
    else
      var rest := InsertBySortOrder(x, ss[1..]);
      InsertBySortOrderHead(x, ss, rest);
      [ss[0]] + rest
  }

  lemma InsertBySortOrderHead(x: Section, ss: seq<Section>, rest: seq<Section>)
    requires SortOrderAscending(ss) && |ss| > 0 && ss[0].sortOrder <= x.sortOrder
    requires SortOrderAscending(rest)
    requires multiset(rest) == multiset(ss[1..]) + multiset{x}
    ensures SortOrderAscending([ss[0]] + rest)
    ensures multiset([ss[0]] + rest) == multiset(ss) + multiset{x}
  {
    forall i | 0 <= i < |rest| ensures ss[0].sortOrder <= rest[i].sortOrder {
      assert rest[i] in multiset(rest);
      if rest[i] != x {
        assert rest[i] in ss[1..];
      }
    }
    assert ss == [ss[0]] + ss[1..];
  }

  /** Sorts by ascending sort order; sections with equal sort order keep
      their table order. */
  function SortBySortOrder(ss: seq<Section>): (r: seq<Section>)
    ensures SortOrderAscending(r)
    ensures multiset(r) == multiset(ss)
  {
    if |ss| == 0 then []
    else
      var init := ss[..|ss| - 1];
      assert ss == init + [ss[|ss| - 1]];
      InsertBySortOrder(ss[|ss| - 1], SortBySortOrder(init))
  }

  /** The section listing (`orderBy: { sortOrder: "asc" }`). */
  function ListSections(db: Db, storeId: Id): (r: seq<Section>)
    ensures SortOrderAscending(r)
    ensures multiset(r) == multiset(SectionsOf(db.sections, storeId))
  {
    SortBySortOrder(SectionsOf(db.sections, storeId))
  }

  /** The listing holds exactly the store's sections: no section of another
      store, and none of the store's left out. */
  lemma ListSectionsExactly(db: Db, storeId: Id)
    ensures forall s :: s in ListSections(db, storeId) <==> s in db.sections && s.storeId == storeId
  {
    var r := ListSections(db, storeId);
    var f := SectionsOf(db.sections, storeId);
    forall s ensures s in r <==> s in f {
      assert s in r <==> s in multiset(r);
      assert s in f <==> s in multiset(f);
    }
  }

  // ---------------------------------------------------------------------
  // POST /stores/:storeId/sections

  /** The section body passes its schema: a name of at least two UTF-16
      code units (JavaScript's `.length`) and a sort order, when given, that
      is not negative. */
  predicate SectionBodyValid(name: string, sortOrder: Option<int>) {
    Utf16Length(name) >= 2 && (sortOrder.Some? ==> sortOrder.value >= 0)
  }

  /** The store already has a section of that name: the table is unique on
      (storeId, name). */
  predicate SectionNameTaken(sections: seq<Section>, storeId: Id, name: string) {
    exists s :: s in sections && s.storeId == storeId && s.name == name
  }

  /** No store has two sections of the same name. */
  predicate UniqueSectionNames(sections: seq<Section>) {
    forall i, j :: 0 <= i < j < |sections| ==>
      !(sections[i].storeId == sections[j].storeId && sections[i].name == sections[j].name)
  }

  /** Creates a section once its body is valid; the sort order defaults to
      0 and the section starts enabled. A valid body whose name the store
      already uses is refused by the database, with 500. */
  function CreateSection(db: Db, storeId: Id, name: string, sortOrder: Option<int>): (r: Outcome<Section>)
    ensures r.result.Ok? <==> SectionBodyValid(name, sortOrder) && !SectionNameTaken(db.sections, storeId, name)
    ensures !SectionBodyValid(name, sortOrder) ==> r.result == Err(ValidationFailed)
    ensures SectionBodyValid(name, sortOrder) && SectionNameTaken(db.sections, storeId, name) ==>
      r.result == Err(DatabaseFailed)
    ensures r.result.Err? ==> r.db == db
    ensures r.result.Ok? ==>
      var s := r.result.value;
      && s.id == db.nextId && s.storeId == storeId && s.name == name && s.enabled
      && s.sortOrder == sortOrder.GetOr(0)
      && r.db == db.(sections := db.sections + [s], nextId := db.nextId + 1)
  {
    if !SectionBodyValid(name, sortOrder) then Outcome(db, Err(ValidationFailed))
    else if SectionNameTaken(db.sections, storeId, name) then Outcome(db, Err(DatabaseFailed))
    else
      var order: nat := if sortOrder.Some? then sortOrder.value else 0;
      var s := Section(db.nextId, storeId, name, order, true);
      Outcome(db.(sections := db.sections + [s], nextId := db.nextId + 1), Ok(s))
  }

  /** Creating a section keeps section names unique per store, and the same
      request made again is refused by the database. */
  lemma CreateSectionKeepsNamesUnique(db: Db, storeId: Id, name: string, sortOrder: Option<int>)
    requires UniqueSectionNames(db.sections)
    ensures UniqueSectionNames(CreateSection(db, storeId, name, sortOrder).db.sections)
    ensures var r := CreateSection(db, storeId, name, sortOrder);
      r.result.Ok? ==> CreateSection(r.db, storeId, name, sortOrder).result == Err(DatabaseFailed)
  {
    var r := CreateSection(db, storeId, name, sortOrder);
    if r.result.Ok? {
      var s := r.result.value;
      assert r.db.sections == db.sections + [s];
      assert s in r.db.sections;
      forall i, j | 0 <= i < j < |r.db.sections|
        ensures !(r.db.sections[i].storeId == r.db.sections[j].storeId && r.db.sections[i].name == r.db.sections[j].name)
      {
        if j == |db.sections| {
          assert r.db.sections[i] in db.sections;
        }
      }
    }
  }

  /** A created section shows up in its store's listing, and no other
      store's listing changes. */
  lemma {:induction false} CreatedSectionListed(db: Db, storeId: Id, name: string, sortOrder: Option<int>, other: Id)
    requires CreateSection(db, storeId, name, sortOrder).result.Ok?
    requires other != storeId
    ensures var r := CreateSection(db, storeId, name, sortOrder);
      && r.result.value in ListSections(r.db, storeId)
      && multiset(ListSections(r.db, other)) == multiset(ListSections(db, other))
  {
    var r := CreateSection(db, storeId, name, sortOrder);
    ListSectionsExactly(r.db, storeId);
    SectionsOfAppend(db.sections, r.result.value, other);
  }

  lemma {:induction false} SectionsOfAppend(sections: seq<Section>, s: Section, storeId: Id)
    requires s.storeId != storeId
    ensures SectionsOf(sections + [s], storeId) == SectionsOf(sections, storeId)
  {
    if |sections| == 0 {
      assert [s][1..] == [];
    } else {
      assert (sections + [s])[1..] == sections[1..] + [s];
      SectionsOfAppend(sections[1..], s, storeId);
    }
  }

  // ---------------------------------------------------------------------
  // POST /stores/:storeId/products

  /** Creates a product of the store and answers its id: the name must have
      at least two UTF-16 code units and the base price must not be negative; the
      currency defaults to YER and the product starts enabled. `sectionId`
      `None` stands for a section id that is absent or empty. */
  function CreateProduct(db: Db, storeId: Id, sectionId: Option<Id>, name: string,
                         description: Option<string>, basePrice: Money, currency: Option<Currency>): (r: Outcome<Id>)
    ensures r.result.Ok? <==> Utf16Length(name) >= 2 && basePrice >= 0
    ensures r.result.Err? ==> r.result.error == ValidationFailed && r.db == db
    ensures r.result.Ok? ==>
      && r.result.value == db.nextId
      && r.db == db.(products := db.products[db.nextId :=
                       Product(storeId, sectionId, name, description, basePrice, currency.GetOr(YER), true)],
                     nextId := db.nextId + 1)
  {
    if Utf16Length(name) < 2 || basePrice < 0 then Outcome(db, Err(ValidationFailed))
    else
      var p := Product(storeId, sectionId, name, description, basePrice, currency.GetOr(YER), true);
      Outcome(db.(products := db.products[db.nextId := p], nextId := db.nextId + 1), Ok(db.nextId))
  }

  /** A new product can be put in a cart exactly when its store is ACTIVE,
      and a line without a variant is priced at the base price. */
  lemma NewProductPurchasable(db: Db, storeId: Id, sectionId: Option<Id>, name: string,
                              description: Option<string>, basePrice: Money, currency: Option<Currency>)
    requires CreateProduct(db, storeId, sectionId, name, description, basePrice, currency).result.Ok?
    ensures var r := CreateProduct(db, storeId, sectionId, name, description, basePrice, currency);
      && (Purchasable(r.db, r.result.value) <==> StoreIsActive(db.stores, storeId))
      && SnapshotPrice(r.db, r.result.value, None) == basePrice
  {
  }

  /** A one-emoji name is long enough: it is two code units. */
  lemma EmojiNameAccepted(db: Db, storeId: Id, basePrice: Money)
    requires basePrice >= 0
    requires !SectionNameTaken(db.sections, storeId, "\U{1F600}")
    ensures CreateSection(db, storeId, "\U{1F600}", None).result.Ok?
    ensures CreateProduct(db, storeId, None, "\U{1F600}", None, basePrice, None).result.Ok?
    ensures !CreateSection(db, storeId, "a", None).result.Ok?
  {
    EmojiIsTwoUnits();
    assert !Astral("a"[0]);
  }

  // ---------------------------------------------------------------------
  // POST /stores/:storeId/variants

  predicate AttributesValid(attributes: seq<Attribute>) {
    forall a :: a in attributes ==> |a.name| >= 1 && |a.value| >= 1
  }

  predicate VariantInputValid(attributes: seq<Attribute>, stockQty: Option<int>, lowStockThreshold: Option<int>) {
    && AttributesValid(attributes)
    && (stockQty.Some? ==> stockQty.value >= 0)
    && (lowStockThreshold.Some? ==> lowStockThreshold.value >= 0)
  }

  predicate ProductInStore(db: Db, productId: Id, storeId: Id) {
    productId in db.products && db.products[productId].storeId == storeId
  }

  /** Adds a variant, with its attributes and its one inventory record, to a
      product of the store, and answers the variant id. The body is checked
      first; then a product that is missing or belongs to another store is
      404. Stock defaults to 0 and the low-stock threshold to 5. */
  function CreateVariant(db: Db, storeId: Id, productId: Id, sku: Option<string>, priceOverride: Option<Money>,
                         attributes: seq<Attribute>, stockQty: Option<int>, lowStockThreshold: Option<int>): (r: Outcome<Id>)
    ensures !VariantInputValid(attributes, stockQty, lowStockThreshold) ==>
      r == Outcome(db, Err(ValidationFailed))
    ensures VariantInputValid(attributes, stockQty, lowStockThreshold) && !ProductInStore(db, productId, storeId) ==>
      r == Outcome(db, Err(Fail(404, "Product not found in this store")))
    ensures r.result.Ok? <==>
      VariantInputValid(attributes, stockQty, lowStockThreshold) && ProductInStore(db, productId, storeId)
    ensures r.result.Ok? ==>
      var v := r.result.value;
      && v == db.nextId
      && r.db == db.(variants := db.variants[v := Variant(productId, sku, priceOverride, true, attributes)],
                     inventory := db.inventory[v := Inventory(stockQty.GetOr(0), lowStockThreshold.GetOr(5))],
                     nextId := db.nextId + 1)
      && r.db.inventory[v].stockQty >= 0 && r.db.inventory[v].lowStockThreshold >= 0
  {
    if !VariantInputValid(attributes, stockQty, lowStockThreshold) then Outcome(db, Err(ValidationFailed))
    else if !ProductInStore(db, productId, storeId) then
      Outcome(db, Err(Fail(404, "Product not found in this store")))
    else
      var v := db.nextId;
      Outcome(db.(variants := db.variants[v := Variant(productId, sku, priceOverride, true, attributes)],
                  inventory := db.inventory[v := Inventory(stockQty.GetOr(0), lowStockThreshold.GetOr(5))],
                  nextId := db.nextId + 1),
              Ok(v))
  }

  /** Ids handed out so far are below the counter: what an auto-increment
      key guarantees. */
  predicate KeysBelowNextId(db: Db) {
    && (forall k :: k in db.variants ==> k < db.nextId)
    && (forall k :: k in db.inventory ==> k < db.nextId)
  }

  /** A new variant gets exactly one new inventory record: the inventory
      table grows by the one key of the variant, and the invariant on ids
      is kept. */
  lemma NewVariantOneInventory(db: Db, storeId: Id, productId: Id, sku: Option<string>, priceOverride: Option<Money>,
                               attributes: seq<Attribute>, stockQty: Option<int>, lowStockThreshold: Option<int>)
    requires KeysBelowNextId(db)
    requires CreateVariant(db, storeId, productId, sku, priceOverride, attributes, stockQty, lowStockThreshold).result.Ok?
    ensures var r := CreateVariant(db, storeId, productId, sku, priceOverride, attributes, stockQty, lowStockThreshold);
      && r.result.value !in db.variants && r.result.value !in db.inventory
      && r.db.inventory.Keys == db.inventory.Keys + {r.result.value}
      && |r.db.inventory.Keys| == |db.inventory.Keys| + 1
      && KeysBelowNextId(r.db)
  {
  }

  /** The new variant is one of the product's variants as add-to-cart sees
      it: its stock is the stock given, and a cart line for it is priced at
      the override when there is one. */
  lemma NewVariantSellable(db: Db, storeId: Id, productId: Id, sku: Option<string>, priceOverride: Option<Money>,
                           attributes: seq<Attribute>, stockQty: Option<int>, lowStockThreshold: Option<int>)
    requires CreateVariant(db, storeId, productId, sku, priceOverride, attributes, stockQty, lowStockThreshold).result.Ok?
    ensures var r := CreateVariant(db, storeId, productId, sku, priceOverride, attributes, stockQty, lowStockThreshold);
      var v := r.result.value;
      && VariantOfProduct(r.db, v, productId)
      && StockOf(r.db, v) == stockQty.GetOr(0)
      && (Purchasable(r.db, productId) <==> Purchasable(db, productId))
      && (IsSet(Some(v)) ==>
            SnapshotPrice(r.db, productId, Some(v)) == priceOverride.GetOr(db.products[productId].basePrice))
  {
  }

  // ---------------------------------------------------------------------
  // POST /stores/:storeId/staff

  /** `user.findUnique({ where: { email } })`: the index of the user, or |users|. */
  function UserIndexByEmail(users: seq<User>, email: string): (i: nat)
    ensures i <= |users|
    ensures i < |users| ==> users[i].email == email
    ensures forall k :: 0 <= k < i ==> users[k].email != email
  {
    if |users| == 0 then 0
    else if users[0].email == email then 0
    else 1 + UserIndexByEmail(users[1..], email)
  }

  /** The index of the link for (store, user), or |staff| when there is none. */
  function LinkIndex(staff: seq<StaffLink>, storeId: Id, userId: Id): (i: nat)
    ensures i <= |staff|
    ensures i < |staff| ==> staff[i].storeId == storeId && staff[i].userId == userId
    ensures forall k :: 0 <= k < i ==> !(staff[k].storeId == storeId && staff[k].userId == userId)
  {
    if |staff| == 0 then 0
    else if staff[0].storeId == storeId && staff[0].userId == userId then 0
    else 1 + LinkIndex(staff[1..], storeId, userId)
  }

  /** The `userRole` upsert: the role is added unless the user holds it. */
  function GrantRole(roles: seq<Role>, role: Role): (r: seq<Role>)
    ensures forall x :: x in r <==> x in roles || x == role
  {
    if role in roles then roles else roles + [role]
  }

  /** The staff table after the `storeStaff` upsert, the link's id and the
      id counter. */
  datatype LinkUpsert = LinkUpsert(staff: seq<StaffLink>, linkId: Id, nextId: Id)

  /** The (store, user) link is updated to the role and re-enabled when it
      exists, and created with the next id otherwise. */
  function UpsertLink(staff: seq<StaffLink>, storeId: Id, userId: Id, role: StaffRole, nextId: Id): (r: LinkUpsert)
    ensures LinkIndex(staff, storeId, userId) < |staff| ==>
      var k := LinkIndex(staff, storeId, userId);
      r == LinkUpsert(staff[k := staff[k].(role := role, enabled := true)], staff[k].id, nextId)
    ensures LinkIndex(staff, storeId, userId) == |staff| ==>
      r == LinkUpsert(staff + [StaffLink(nextId, storeId, userId, role, true)], nextId, nextId + 1)
  {
    var k := LinkIndex(staff, storeId, userId);
    if k < |staff| then
      LinkUpsert(staff[k := staff[k].(role := role, enabled := true)], staff[k].id, nextId)
    else
      LinkUpsert(staff + [StaffLink(nextId, storeId, userId, role, true)], nextId, nextId + 1)
  }

  /** Makes the user with the given email a member of the store's staff with
      the given role, and answers the link id: 404 when no user has the
      email, 500 when the STAFF role is not seeded; otherwise the user is
      given the STAFF role, and the (store, user) link is created, or
      updated to the role and re-enabled. */
  function UpsertStaff(db: Db, storeId: Id, email: string, role: StaffRole): (r: Outcome<Id>)
    ensures UserIndexByEmail(db.users, email) == |db.users| ==> r == Outcome(db, Err(Fail(404, "User not found")))
    ensures UserIndexByEmail(db.users, email) < |db.users| && Staff !in db.roleCodes ==>
      r == Outcome(db, Err(Fail(500, "Role seed missing: STAFF")))
    ensures r.result.Ok? <==> UserIndexByEmail(db.users, email) < |db.users| && Staff in db.roleCodes
    ensures r.result.Ok? ==>
      var u := UserIndexByEmail(db.users, email);
      var link := UpsertLink(db.staff, storeId, db.users[u].id, role, db.nextId);
      && r.result.value == link.linkId
      && r.db == db.(users := db.users[u := db.users[u].(roles := GrantRole(db.users[u].roles, Staff))],
                     staff := link.staff, nextId := link.nextId)
  {
    var u := UserIndexByEmail(db.users, email);
    if u == |db.users| then Outcome(db, Err(Fail(404, "User not found")))
    else if Staff !in db.roleCodes then Outcome(db, Err(Fail(500, "Role seed missing: STAFF")))
    else
      var user := db.users[u];
      var link := UpsertLink(db.staff, storeId, user.id, role, db.nextId);
      Outcome(db.(users := db.users[u := user.(roles := GrantRole(user.roles, Staff))],
                  staff := link.staff, nextId := link.nextId),
              Ok(link.linkId))
  }

  /** The handler with its request body: `isEmail` is the schema's email
      syntax check, applied before any lookup. */
  function UpsertStaffRequest(db: Db, storeId: Id, email: string, role: StaffRole, isEmail: string -> bool): (r: Outcome<Id>)
    ensures !isEmail(email) ==> r == Outcome(db, Err(ValidationFailed))
    ensures isEmail(email) ==> r == UpsertStaff(db, storeId, email, role)
  {
    if !isEmail(email) then Outcome(db, Err(ValidationFailed)) else UpsertStaff(db, storeId, email, role)
  }

  /** The (store, user) uniqueness constraint of the staff table. */
  predicate UniqueLinks(staff: seq<StaffLink>) {
    forall i, j :: 0 <= i < j < |staff| ==>
      !(staff[i].storeId == staff[j].storeId && staff[i].userId == staff[j].userId)
  }

  /** After the link upsert the user has exactly one link to the store; it
      is enabled, has the requested role and carries the answered id; every
      other link is as before, and the uniqueness constraint holds. */
  lemma UpsertLinkEffect(staff: seq<StaffLink>, storeId: Id, userId: Id, role: StaffRole, nextId: Id)
    requires UniqueLinks(staff)
    ensures var r := UpsertLink(staff, storeId, userId, role, nextId);
      var link := StaffLink(r.linkId, storeId, userId, role, true);
      && UniqueLinks(r.staff)
      && link in r.staff
      && (forall l :: l in r.staff && l.storeId == storeId && l.userId == userId ==> l == link)
      && (forall l :: l in staff && !(l.storeId == storeId && l.userId == userId) ==> l in r.staff)
  {
    var r := UpsertLink(staff, storeId, userId, role, nextId);
    var k := LinkIndex(staff, storeId, userId);
    var link := StaffLink(r.linkId, storeId, userId, role, true);
    if k < |staff| {
      UpsertLinkUpdated(staff, storeId, userId, role, k);
    } else {
      UpsertLinkCreated(staff, storeId, userId, role, nextId);
    }
  }

  lemma UpsertLinkUpdated(staff: seq<StaffLink>, storeId: Id, userId: Id, role: StaffRole, k: nat)
    requires UniqueLinks(staff)
    requires k == LinkIndex(staff, storeId, userId) < |staff|
    ensures var staff' := staff[k := staff[k].(role := role, enabled := true)];
      var link := StaffLink(staff[k].id, storeId, userId, role, true);
      && UniqueLinks(staff')
      && staff'[k] == link
      && (forall l :: l in staff' && l.storeId == storeId && l.userId == userId ==> l == link)
      && (forall l :: l in staff && !(l.storeId == storeId && l.userId == userId) ==> l in staff')
  {
    var staff' := staff[k := staff[k].(role := role, enabled := true)];
    forall l | l in staff && !(l.storeId == storeId && l.userId == userId) ensures l in staff' {
      var j :| 0 <= j < |staff| && staff[j] == l;
      assert staff'[j] == l;
    }
  }

  lemma UpsertLinkCreated(staff: seq<StaffLink>, storeId: Id, userId: Id, role: StaffRole, nextId: Id)
    requires UniqueLinks(staff)
    requires LinkIndex(staff, storeId, userId) == |staff|
    ensures var link := StaffLink(nextId, storeId, userId, role, true);
      var staff' := staff + [link];
      && UniqueLinks(staff')
      && (forall l :: l in staff' && l.storeId == storeId && l.userId == userId ==> l == link)
  {
    var link := StaffLink(nextId, storeId, userId, role, true);
    var staff' := staff + [link];
    assert forall l :: l in staff ==> !(l.storeId == storeId && l.userId == userId);
    assert forall l :: l in staff' <==> l in staff || l == link;
  }

  /** After a successful staff upsert the user holds the STAFF role and has
      exactly one link to the store, enabled, with the requested role and
      the answered id; every other link is as before. */
  lemma UpsertStaffLink(db: Db, storeId: Id, email: string, role: StaffRole)
    requires UniqueLinks(db.staff)
    requires UpsertStaff(db, storeId, email, role).result.Ok?
    ensures var r := UpsertStaff(db, storeId, email, role);
      var u := UserIndexByEmail(db.users, email);
      var link := StaffLink(r.result.value, storeId, db.users[u].id, role, true);
      && Staff in r.db.users[u].roles && r.db.users[u].id == db.users[u].id
      && UniqueLinks(r.db.staff)
      && link in r.db.staff
      && (forall l :: l in r.db.staff && l.storeId == storeId && l.userId == db.users[u].id ==> l == link)
      && (forall l :: l in db.staff && !(l.storeId == storeId && l.userId == db.users[u].id) ==> l in r.db.staff)
  {
    var u := UserIndexByEmail(db.users, email);
    UpsertLinkEffect(db.staff, storeId, db.users[u].id, role, db.nextId);
  }

  /** Repeating the same link upsert changes nothing more. */
  lemma UpsertLinkIdempotent(staff: seq<StaffLink>, storeId: Id, userId: Id, role: StaffRole, nextId: Id)
    ensures var r := UpsertLink(staff, storeId, userId, role, nextId);
      UpsertLink(r.staff, storeId, userId, role, r.nextId) == r
  {
    var r := UpsertLink(staff, storeId, userId, role, nextId);
    var k := LinkIndex(staff, storeId, userId);
    LinkIndexKept(staff, r.staff, storeId, userId, k);
    assert r.staff[k := r.staff[k].(role := role, enabled := true)] == r.staff;
  }

  /** Repeating the same upsert changes nothing more and answers the same id. */
  lemma UpsertStaffIdempotent(db: Db, storeId: Id, email: string, role: StaffRole)
    requires UpsertStaff(db, storeId, email, role).result.Ok?
    ensures var r := UpsertStaff(db, storeId, email, role);
      UpsertStaff(r.db, storeId, email, role) == r
  {
    var r := UpsertStaff(db, storeId, email, role);
    var u := UserIndexByEmail(db.users, email);
    var user := db.users[u];
    var user1 := user.(roles := GrantRole(user.roles, Staff));
    UserIndexKept(db.users, r.db.users, email, u);
    assert GrantRole(user1.roles, Staff) == user1.roles;
    assert r.db.users[u := user1] == r.db.users;
    UpsertLinkIdempotent(db.staff, storeId, user.id, role, db.nextId);
  }

  lemma UserIndexKept(a: seq<User>, b: seq<User>, email: string, u: nat)
    requires u == UserIndexByEmail(a, email) < |a|
    requires |b| == |a| && b[u].email == email
    requires forall k :: 0 <= k < u ==> b[k].email == a[k].email
    ensures UserIndexByEmail(b, email) == u
  {
  }

  lemma LinkIndexKept(a: seq<StaffLink>, b: seq<StaffLink>, storeId: Id, userId: Id, k: nat)
    requires k == LinkIndex(a, storeId, userId)
    requires k < |b| && b[k].storeId == storeId && b[k].userId == userId
    requires forall j :: 0 <= j < k ==> b[j] == a[j]
    ensures LinkIndex(b, storeId, userId) == k
  {
  }

  /** User ids are unique (the primary key). */
  predicate UniqueUserIds(users: seq<User>) {
    forall i, j :: 0 <= i < j < |users| ==> users[i].id != users[j].id
  }

  /** Once added, the staff member's next request authenticates with the
      STAFF role and an enabled grant for the store with the requested role,
      which opens the store's section listing. */
  lemma UpsertStaffOpensStore(db: Db, storeId: Id, email: string, role: StaffRole,
                              header: Option<string>, verify: string -> Option<Id>)
    requires UniqueUserIds(db.users)
    requires UpsertStaff(db, storeId, email, role).result.Ok?
    requires ParseAuthHeader(header).Some?
    requires verify(ParseAuthHeader(header).value) == Some(db.users[UserIndexByEmail(db.users, email)].id)
    ensures var r := UpsertStaff(db, storeId, email, role);
      var auth := RequireAuth(header, verify, r.db);
      && auth.Ok?
      && Staff in auth.value.roles
      && StaffGrant(storeId, role) in auth.value.storeIdsAsStaff
  {
    var r := UpsertStaff(db, storeId, email, role);
    var u := UserIndexByEmail(db.users, email);
    var user := r.db.users[u];
    assert user.id == db.users[u].id && Staff in user.roles;
    UniqueIdFound(r.db.users, u);
    var auth := RequireAuth(header, verify, r.db);
    assert auth.Ok?;
    UpsertLinkPresent(db.staff, storeId, user.id, role, db.nextId);
  }

  lemma UpsertLinkPresent(staff: seq<StaffLink>, storeId: Id, userId: Id, role: StaffRole, nextId: Id)
    ensures var r := UpsertLink(staff, storeId, userId, role, nextId);
      StaffLink(r.linkId, storeId, userId, role, true) in r.staff
  {
    var r := UpsertLink(staff, storeId, userId, role, nextId);
    var k := LinkIndex(staff, storeId, userId);
    assert r.staff[k] == StaffLink(r.linkId, storeId, userId, role, true);
  }

  lemma UniqueIdFound(users: seq<User>, u: nat)
    requires u < |users|
    requires forall i, j :: 0 <= i < j < |users| && i != u && j != u ==> users[i].id != users[j].id
    requires forall i :: 0 <= i < |users| && i != u ==> users[i].id != users[u].id
    ensures FindUser(users, users[u].id) == Some(users[u])
  {
    if u > 0 {
      assert users[1..][u - 1] == users[u];
      UniqueIdFound(users[1..], u - 1);
    }
  }

  // ---------------------------------------------------------------------
  // GET /stores/:storeId/orders

  /** One row of the order listing. */
  datatype OrderRow = OrderRow(
    id: Id, status: OrderStatus, paymentStatus: PaymentStatus, currency: Currency,
    total: Money, itemsCount: nat)

  /** Σ qty over the items: the reference definition. */
  function SumQty(items: seq<OrderItem>): nat {
    if |items| == 0 then 0 else items[0].qty + SumQty(items[1..])
  }

  /** `items.reduce((a, it) => a + it.qty, acc)`: a left fold. */
  function FoldQty(acc: nat, items: seq<OrderItem>): nat
    decreases |items|
  {
    if |items| == 0 then acc else FoldQty(acc + items[0].qty, items[1..])
  }

  /** The left fold from 0 computes the sum. */
  lemma {:induction false} FoldQtyIsSum(acc: nat, items: seq<OrderItem>)
    ensures FoldQty(acc, items) == acc + SumQty(items)
    decreases |items|
  {
    if |items| > 0 {
      FoldQtyIsSum(acc + items[0].qty, items[1..]);
    }
  }

  function OrdersOf(orders: seq<Order>, storeId: Id): (r: seq<Order>)
    ensures forall o :: o in r <==> o in orders && o.storeId == storeId
  {
    if |orders| == 0 then []
    else OrdersOf(orders[..|orders| - 1], storeId)
         + (if orders[|orders| - 1].storeId == storeId then [orders[|orders| - 1]] else [])
  }

  /** The row shown for an order; its item count is Σ qty. */
  function RowOf(o: Order): (row: OrderRow)
    ensures row == OrderRow(o.id, o.status, o.paymentStatus, o.currency, o.total, SumQty(o.items))
  {
    FoldQtyIsSum(0, o.items);
    OrderRow(o.id, o.status, o.paymentStatus, o.currency, o.total, FoldQty(0, o.items))
  }

  /** The order listing: the store's 50 newest orders, newest first, each
      with its total and its number of items. */
  function ListStoreOrders(db: Db, storeId: Id): (r: seq<OrderRow>)
    ensures |r| == Min(50, |OrdersOf(db.orders, storeId)|)
    ensures forall i :: 0 <= i < |r| ==>
      r[i] == RowOf(OrdersOf(db.orders, storeId)[|OrdersOf(db.orders, storeId)| - 1 - i])
  {
    var newest := Newest(OrdersOf(db.orders, storeId), 50);
    seq(|newest|, i requires 0 <= i < |newest| => RowOf(newest[i]))
  }

  /** The row shows one of the store's orders. */
  ghost predicate RowOfStore(db: Db, storeId: Id, row: OrderRow) {
    exists o :: o in db.orders && o.storeId == storeId && o.id == row.id
  }

  /** The order is among the listed rows. */
  ghost predicate Listed(rows: seq<OrderRow>, o: Order) {
    exists i :: 0 <= i < |rows| && rows[i].id == o.id
  }

  /** Every listed order is one of the store's orders, and a store with at
      most 50 orders sees all of them. */
  lemma ListStoreOrdersScope(db: Db, storeId: Id)
    ensures forall row :: row in ListStoreOrders(db, storeId) ==> RowOfStore(db, storeId, row)
    ensures |OrdersOf(db.orders, storeId)| <= 50 ==>
      forall o :: o in db.orders && o.storeId == storeId ==> Listed(ListStoreOrders(db, storeId), o)
  {
    var r := ListStoreOrders(db, storeId);
    var mine := OrdersOf(db.orders, storeId);
    forall row | row in r ensures RowOfStore(db, storeId, row) {
      var i :| 0 <= i < |r| && r[i] == row;
      var o := mine[|mine| - 1 - i];
      assert o in mine;
    }
    if |mine| <= 50 {
      forall o | o in db.orders && o.storeId == storeId ensures Listed(r, o) {
        var j :| 0 <= j < |mine| && mine[j] == o;
        assert r[|mine| - 1 - j].id == o.id;
      }
    }
  }
}
