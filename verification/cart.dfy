/** The customer's active cart: find-or-create, adding a priced line, and
    grouping the lines by store for display and for checkout. */
module Cart {
  import opened Basics
  import opened Model

  // ---------------------------------------------------------------------
  // getActiveCart

  predicate IsActiveCartOf(c: Cart, customerId: Id) {
    c.customerId == customerId && c.active
  }

  predicate HasActiveCart(carts: seq<Cart>, customerId: Id) {
    exists c :: c in carts && IsActiveCartOf(c, customerId)
  }

  /** `cart.findFirst({ where: { customerId, status: true } })` */
  function FirstActiveCartIndex(carts: seq<Cart>, customerId: Id): (i: nat)
    ensures i <= |carts|
    ensures i < |carts| ==> IsActiveCartOf(carts[i], customerId)
    ensures forall k :: 0 <= k < i ==> !IsActiveCartOf(carts[k], customerId)
  {
    if |carts| == 0 then 0
    else if IsActiveCartOf(carts[0], customerId) then 0
    else 1 + FirstActiveCartIndex(carts[1..], customerId)
  }

  datatype CartStep = CartStep(db: Db, cart: Cart)

  /** The customer's active cart; a new one is created only when none exists. */
  function GetActiveCart(db: Db, customerId: Id): (r: CartStep)
    ensures r.cart in r.db.carts && IsActiveCartOf(r.cart, customerId)
    ensures HasActiveCart(db.carts, customerId) ==> r.db == db
    ensures !HasActiveCart(db.carts, customerId) ==>
      && r.cart.id == db.nextId
      && r.db == db.(carts := db.carts + [r.cart], nextId := db.nextId + 1)
  {
    var i := FirstActiveCartIndex(db.carts, customerId);
    if i < |db.carts| then CartStep(db, db.carts[i])
    else
      var c := Cart(db.nextId, customerId, true);
      CartStep(db.(carts := db.carts + [c], nextId := db.nextId + 1), c)
  }

  function CountActive(carts: seq<Cart>, customerId: Id): nat {
    if |carts| == 0 then 0
    else CountActive(carts[..|carts| - 1], customerId)
         + (if IsActiveCartOf(carts[|carts| - 1], customerId) then 1 else 0)
  }

  lemma {:induction false} CountActiveZero(carts: seq<Cart>, customerId: Id)
    ensures CountActive(carts, customerId) == 0 <==> !HasActiveCart(carts, customerId)
  {
    if |carts| > 0 {
      var pre := carts[..|carts| - 1];
      assert carts == pre + [carts[|carts| - 1]];
      CountActiveZero(pre, customerId);
      assert forall c :: c in carts <==> c in pre || c == carts[|carts| - 1];
    }
  }

  /** After the call the customer has an active cart: the count is unchanged
      when there was one, and exactly one cart was created otherwise. */
  lemma GetActiveCartCount(db: Db, customerId: Id)
    ensures var after := CountActive(GetActiveCart(db, customerId).db.carts, customerId);
            var before := CountActive(db.carts, customerId);
            after >= 1 && (before == 0 ==> after == 1) && (before > 0 ==> after == before)
  {
    var r := GetActiveCart(db, customerId);
    CountActiveZero(db.carts, customerId);
    CountActiveZero(r.db.carts, customerId);
    if !HasActiveCart(db.carts, customerId) {
      assert r.db.carts[..|r.db.carts| - 1] == db.carts;
    }
  }

  /** Asking twice gives the same cart and the same state as asking once. */
  lemma GetActiveCartIdempotent(db: Db, customerId: Id)
    ensures var r := GetActiveCart(db, customerId);
            GetActiveCart(r.db, customerId) == r
  {
    var r := GetActiveCart(db, customerId);
    if !HasActiveCart(db.carts, customerId) {
      var i := FirstActiveCartIndex(r.db.carts, customerId);
      assert r.db.carts[|db.carts|] == r.cart;
      assert forall k :: 0 <= k < |db.carts| ==> r.db.carts[k] == db.carts[k];
      assert i == |db.carts|;
    }
  }

  // ---------------------------------------------------------------------
  // POST /cart/items

  predicate StoreIsActive(stores: seq<Store>, storeId: Id) {
    var s := FindStore(stores, storeId);
    s.Some? && s.value.status == Active
  }

  /** The product exists, is enabled and its store is ACTIVE. */
  predicate Purchasable(db: Db, productId: Id) {
    && productId in db.products
    && db.products[productId].enabled
    && StoreIsActive(db.stores, db.products[productId].storeId)
  }

  predicate VariantOfProduct(db: Db, variantId: Id, productId: Id) {
    variantId in db.variants && db.variants[variantId].productId == productId
  }

  /** `v.inventory?.stockQty ?? 0` */
  function StockOf(db: Db, variantId: Id): int {
    if variantId in db.inventory then db.inventory[variantId].stockQty else 0
  }

  /** The price frozen on the line: the variant's override when there is one,
      else the product's base price. */
  function SnapshotPrice(db: Db, productId: Id, variantId: Option<Id>): Money
    requires productId in db.products
    requires IsSet(variantId) ==> variantId.value in db.variants
  {
    var base := db.products[productId].basePrice;
    if IsSet(variantId) then db.variants[variantId.value].priceOverride.GetOr(base) else base
  }

  /** Adds a line to the caller's active cart and answers its id. The cart
      is found or created before anything is validated, so a failing call
      may still have created the cart; nothing else is ever changed, and in
      particular stock is checked but not reserved. */
  function AddToCart(db: Db, customerId: Id, productId: Id, variantId: Option<Id>, qty: int): (r: Outcome<Id>)
    ensures var db1 := GetActiveCart(db, customerId).db;
      && r.db.(cartItems := db1.cartItems, nextId := db1.nextId) == db1
      && (r.result.Err? ==> r.db == db1)
    ensures qty < 1 ==> r.result == Err(ValidationFailed)
    ensures qty >= 1 && !Purchasable(db, productId) ==> r.result == Err(Fail(404, "Product not found"))
    ensures qty >= 1 && Purchasable(db, productId) && IsSet(variantId) && !VariantOfProduct(db, variantId.value, productId) ==>
      r.result == Err(Fail(404, "Variant not found"))
    ensures qty >= 1 && Purchasable(db, productId) && IsSet(variantId) && VariantOfProduct(db, variantId.value, productId)
        && StockOf(db, variantId.value) < qty
      ==> r.result == Err(Fail(400, "Insufficient stock for variant"))
    ensures r.result.Ok? <==>
      qty >= 1 && Purchasable(db, productId)
      && (IsSet(variantId) ==> VariantOfProduct(db, variantId.value, productId) && StockOf(db, variantId.value) >= qty)
    ensures r.result.Ok? ==>
      var step := GetActiveCart(db, customerId);
      var p := db.products[productId];
      && r.result.value == step.db.nextId
      && r.db.nextId == step.db.nextId + 1
      && r.db.cartItems == step.db.cartItems +
           [CartItem(r.result.value, step.cart.id, p.storeId, productId, variantId, qty,
                     SnapshotPrice(db, productId, variantId), p.currency)]
  {
    var step := GetActiveCart(db, customerId);
    var db1 := step.db;
    if qty < 1 then Outcome(db1, Err(ValidationFailed))
    else if !Purchasable(db1, productId) then Outcome(db1, Err(Fail(404, "Product not found")))
    else
      var p := db1.products[productId];
      if IsSet(variantId) && !VariantOfProduct(db1, variantId.value, productId) then
        Outcome(db1, Err(Fail(404, "Variant not found")))
      else if IsSet(variantId) && StockOf(db1, variantId.value) < qty then
        Outcome(db1, Err(Fail(400, "Insufficient stock for variant")))
      else
        var line := CartItem(db1.nextId, step.cart.id, p.storeId, productId, variantId, qty,
                             SnapshotPrice(db1, productId, variantId), p.currency);
        Outcome(db1.(cartItems := db1.cartItems + [line], nextId := db1.nextId + 1), Ok(line.id))
  }

  // ---------------------------------------------------------------------
  // Grouping lines by store

  function LineTotal(it: CartItem): Money {
    it.unitPrice * it.qty
  }

  /** Σ unitPrice × qty, accumulated left to right. */
  function Subtotal(lines: seq<CartItem>): Money {
    if |lines| == 0 then 0 else Subtotal(lines[..|lines| - 1]) + LineTotal(lines[|lines| - 1])
  }

  /** The lines of `items` that belong to `storeId`, in their order. */
  function LinesOf(items: seq<CartItem>, storeId: Id): (r: seq<CartItem>)
    ensures forall it :: it in r <==> it in items && it.storeId == storeId
    ensures (forall it :: it in items ==> it.storeId != storeId) ==> r == []
  {
    if |items| == 0 then []
    else
      var pre := items[..|items| - 1];
      var last := items[|items| - 1];
      assert items == pre + [last];
      LinesOf(pre, storeId) + (if last.storeId == storeId then [last] else [])
  }

  /** The lines of one store and their running subtotal. */
  datatype Group = Group(storeId: Id, lines: seq<CartItem>, subtotal: Money)

  predicate DistinctStores(gs: seq<Group>) {
    forall i, j :: 0 <= i < j < |gs| ==> gs[i].storeId != gs[j].storeId
  }

  predicate HasGroup(gs: seq<Group>, storeId: Id) {
    exists i :: 0 <= i < |gs| && gs[i].storeId == storeId
  }

  function AppendLine(g: Group, it: CartItem): Group {
    Group(g.storeId, g.lines + [it], g.subtotal + LineTotal(it))
  }

  /** One step of the grouping loop: the line joins its store's group, or
      opens a new group at the end. */
  function AddToGroups(gs: seq<Group>, it: CartItem): (r: seq<Group>)
    requires DistinctStores(gs)
    ensures DistinctStores(r)
    ensures HasGroup(gs, it.storeId) ==> |r| == |gs|
    ensures !HasGroup(gs, it.storeId) ==> |r| == |gs| + 1 && r[|gs|] == Group(it.storeId, [it], LineTotal(it))
    ensures forall i :: 0 <= i < |gs| ==>
      r[i] == (if gs[i].storeId == it.storeId then AppendLine(gs[i], it) else gs[i])
  {
    if |gs| == 0 then [Group(it.storeId, [it], 0 + LineTotal(it))]
    else if gs[0].storeId == it.storeId then [AppendLine(gs[0], it)] + gs[1..]
    else
      var rest := AddToGroups(gs[1..], it);
      assert HasGroup(gs, it.storeId) <==> HasGroup(gs[1..], it.storeId) by {
        if HasGroup(gs, it.storeId) {
          var i :| 0 <= i < |gs| && gs[i].storeId == it.storeId;
          assert gs[1..][i - 1] == gs[i];
        }
        if HasGroup(gs[1..], it.storeId) {
          var i :| 0 <= i < |gs[1..]| && gs[1..][i].storeId == it.storeId;
          assert gs[i + 1] == gs[1..][i];
        }
      }
      [gs[0]] + rest
  }

  /** `gs` groups `items` by store: one group per store present, each
      holding exactly that store's lines in order, with their subtotal. */
  ghost predicate GroupsOf(items: seq<CartItem>, gs: seq<Group>) {
    && DistinctStores(gs)
    && (forall i :: 0 <= i < |gs| ==>
          && |gs[i].lines| > 0
          && gs[i].lines == LinesOf(items, gs[i].storeId)
          && gs[i].subtotal == Subtotal(gs[i].lines))
    && (forall it :: it in items ==> HasGroup(gs, it.storeId))
  }

  /** The grouping loop over `items`, in order of first appearance. */
  function GroupByStore(items: seq<CartItem>): (gs: seq<Group>)
    ensures GroupsOf(items, gs)
  {
    if |items| == 0 then []
    else
      var gs0 := GroupByStore(items[..|items| - 1]);
      GroupStep(items, gs0);
      AddToGroups(gs0, items[|items| - 1])
  }

  lemma GroupStep(items: seq<CartItem>, gs0: seq<Group>)
    requires |items| > 0
    requires GroupsOf(items[..|items| - 1], gs0)
    ensures GroupsOf(items, AddToGroups(gs0, items[|items| - 1]))
  {
    var pre := items[..|items| - 1];
    var x := items[|items| - 1];
    var r := AddToGroups(gs0, x);
    forall i | 0 <= i < |r|
      ensures |r[i].lines| > 0 && r[i].lines == LinesOf(items, r[i].storeId) && r[i].subtotal == Subtotal(r[i].lines)
    {
      if i < |gs0| {
        GroupStepOld(items, gs0, i);
      } else {
        GroupStepNew(items, gs0);
      }
    }
    GroupStepCover(items, gs0);
  }

  lemma GroupStepOld(items: seq<CartItem>, gs0: seq<Group>, i: nat)
    requires |items| > 0 && DistinctStores(gs0) && i < |gs0|
    requires |gs0[i].lines| > 0
    requires gs0[i].lines == LinesOf(items[..|items| - 1], gs0[i].storeId)
    requires gs0[i].subtotal == Subtotal(gs0[i].lines)
    ensures var r := AddToGroups(gs0, items[|items| - 1]);
      |r[i].lines| > 0 && r[i].lines == LinesOf(items, r[i].storeId) && r[i].subtotal == Subtotal(r[i].lines)
  {
    var x := items[|items| - 1];
    var l := gs0[i].lines;
    if gs0[i].storeId == x.storeId {
      assert (l + [x])[..|l|] == l;
    }
  }

  lemma GroupStepNew(items: seq<CartItem>, gs0: seq<Group>)
    requires |items| > 0 && DistinctStores(gs0)
    requires forall it :: it in items[..|items| - 1] ==> HasGroup(gs0, it.storeId)
    requires !HasGroup(gs0, items[|items| - 1].storeId)
    ensures var x := items[|items| - 1];
      var r := AddToGroups(gs0, x);
      |r| == |gs0| + 1 && r[|gs0|].lines == LinesOf(items, x.storeId)
      && r[|gs0|].subtotal == Subtotal(r[|gs0|].lines) && |r[|gs0|].lines| > 0
  {
    var pre := items[..|items| - 1];
    var x := items[|items| - 1];
    assert [x][..0] == [];
  }

  lemma GroupStepCover(items: seq<CartItem>, gs0: seq<Group>)
    requires |items| > 0 && DistinctStores(gs0)
    requires forall it :: it in items[..|items| - 1] ==> HasGroup(gs0, it.storeId)
    ensures forall it :: it in items ==> HasGroup(AddToGroups(gs0, items[|items| - 1]), it.storeId)
  {
    var pre := items[..|items| - 1];
    var x := items[|items| - 1];
    var r := AddToGroups(gs0, x);
    assert items == pre + [x];
    forall it | it in items ensures HasGroup(r, it.storeId) {
      if it in pre {
        var i :| 0 <= i < |gs0| && gs0[i].storeId == it.storeId;
        assert r[i].storeId == it.storeId;
      } else if HasGroup(gs0, x.storeId) {
        var i :| 0 <= i < |gs0| && gs0[i].storeId == x.storeId;
        assert r[i].storeId == it.storeId;
      } else {
        assert r[|gs0|].storeId == it.storeId;
      }
    }
  }

  /** All lines of the groups, group after group: the order checkout visits them. */
  function Flatten(gs: seq<Group>): seq<CartItem> {
    if |gs| == 0 then [] else gs[0].lines + Flatten(gs[1..])
  }

  lemma {:induction false} AddToGroupsFlatten(gs: seq<Group>, it: CartItem)
    requires DistinctStores(gs)
    ensures multiset(Flatten(AddToGroups(gs, it))) == multiset(Flatten(gs)) + multiset{it}
  {
    if |gs| == 0 {
    } else if gs[0].storeId == it.storeId {
      var r := AddToGroups(gs, it);
      assert r[1..] == gs[1..];
    } else {
      var r := AddToGroups(gs, it);
      assert r[1..] == AddToGroups(gs[1..], it);
      AddToGroupsFlatten(gs[1..], it);
    }
  }

  /** Grouping only rearranges the lines: together the groups hold each
      line of `items` exactly as often as `items` does. */
  lemma {:induction false} GroupByStorePermutes(items: seq<CartItem>)
    ensures multiset(Flatten(GroupByStore(items))) == multiset(items)
  {
    if |items| > 0 {
      var pre := items[..|items| - 1];
      assert items == pre + [items[|items| - 1]];
      GroupByStorePermutes(pre);
      AddToGroupsFlatten(GroupByStore(pre), items[|items| - 1]);
    }
  }

  // ---------------------------------------------------------------------
  // GET /cart

  /** The lines of one cart (`cartItem.findMany({ where: { cartId } })`). */
  function ItemsOfCart(items: seq<CartItem>, cartId: Id): (r: seq<CartItem>)
    ensures forall it :: it in r <==> it in items && it.cartId == cartId
    ensures (forall it :: it in items ==> it.cartId != cartId) ==> r == []
  {
    if |items| == 0 then []
    else
      var pre := items[..|items| - 1];
      var last := items[|items| - 1];
      assert items == pre + [last];
      ItemsOfCart(pre, cartId) + (if last.cartId == cartId then [last] else [])
  }

  function Reverse(s: seq<CartItem>): (r: seq<CartItem>)
    ensures |r| == |s|
    ensures forall i :: 0 <= i < |s| ==> r[i] == s[|s| - 1 - i]
    ensures forall x :: x in r <==> x in s
  {
    if |s| == 0 then [] else [s[|s| - 1]] + Reverse(s[..|s| - 1])
  }

  predicate StoresAscending(gs: seq<Group>) {
    forall i, j :: 0 <= i < j < |gs| ==> gs[i].storeId < gs[j].storeId
  }

  function InsertByStore(g: Group, gs: seq<Group>): (r: seq<Group>)
    requires StoresAscending(gs)
    requires forall i :: 0 <= i < |gs| ==> gs[i].storeId != g.storeId
    ensures StoresAscending(r)
    ensures multiset(r) == multiset(gs) + multiset{g}
  {
    if |gs| == 0 || g.storeId < gs[0].storeId then [g] + gs
    else
      var rest := InsertByStore(g, gs[1..]);
      InsertByStoreHead(g, gs, rest);
      [gs[0]] + rest
  }

  lemma InsertByStoreHead(g: Group, gs: seq<Group>, rest: seq<Group>)
    requires StoresAscending(gs) && |gs| > 0 && gs[0].storeId < g.storeId
    requires StoresAscending(rest)
    requires multiset(rest) == multiset(gs[1..]) + multiset{g}
    ensures StoresAscending([gs[0]] + rest)
    ensures multiset([gs[0]] + rest) == multiset(gs) + multiset{g}
  {
    forall i | 0 <= i < |rest| ensures gs[0].storeId < rest[i].storeId {
      assert rest[i] in multiset(rest);
      if rest[i] != g {
        assert rest[i] in gs[1..];
        var k :| 0 <= k < |gs[1..]| && gs[1..][k] == rest[i];
        assert gs[k + 1] == rest[i];
      }
    }
    assert gs == [gs[0]] + gs[1..];
  }

  lemma SortByStoreHead(gs: seq<Group>, rest: seq<Group>)
    requires DistinctStores(gs) && |gs| > 0
    requires multiset(rest) == multiset(gs[1..])
    ensures forall i :: 0 <= i < |rest| ==> rest[i].storeId != gs[0].storeId
    ensures multiset(rest) + multiset{gs[0]} == multiset(gs)
  {
    forall i | 0 <= i < |rest| ensures rest[i].storeId != gs[0].storeId {
      assert rest[i] in multiset(rest);
      assert rest[i] in gs[1..];
      var k :| 0 <= k < |gs[1..]| && gs[1..][k] == rest[i];
      assert gs[k + 1] == rest[i];
    }
    assert gs == [gs[0]] + gs[1..];
  }

  /** Orders groups by ascending store id: the order in which a JavaScript
      object enumerates keys that are array indices (up to 2^32 - 2), which
      is what `Object.values` returns for the view's `groups` record when
      every store id is such an index. */
  function SortByStore(gs: seq<Group>): (r: seq<Group>)
    requires DistinctStores(gs)
    ensures StoresAscending(r)
    ensures multiset(r) == multiset(gs)
  {
    if |gs| == 0 then []
    else
      var rest := SortByStore(gs[1..]);
      SortByStoreHead(gs, rest);
      InsertByStore(gs[0], rest)
  }

  datatype CartView = CartView(cartId: Id, groups: seq<Group>)

  /** GET /cart: the active cart's lines, newest first, grouped by store. */
  function ViewCart(db: Db, customerId: Id): (r: (Db, CartView))
    ensures r.0 == GetActiveCart(db, customerId).db
  {
    var step := GetActiveCart(db, customerId);
    var newestFirst := Reverse(ItemsOfCart(step.db.cartItems, step.cart.id));
    var groups := GroupByStore(newestFirst);
    (step.db, CartView(step.cart.id, SortByStore(groups)))
  }

  /** Sorting the groups keeps the grouping intact. */
  lemma SortKeepsGroups(items: seq<CartItem>, gs: seq<Group>)
    requires GroupsOf(items, gs)
    ensures var s := SortByStore(gs);
      && StoresAscending(s)
      && (forall it :: it in items ==> HasGroup(s, it.storeId))
      && (forall i :: 0 <= i < |s| ==>
            |s[i].lines| > 0 && s[i].lines == LinesOf(items, s[i].storeId) && s[i].subtotal == Subtotal(s[i].lines))
  {
    var s := SortByStore(gs);
    SameGroups(gs, s);
    forall it | it in items ensures HasGroup(s, it.storeId) {
      var i :| 0 <= i < |gs| && gs[i].storeId == it.storeId;
      assert gs[i] in s;
    }
    forall i | 0 <= i < |s|
      ensures |s[i].lines| > 0 && s[i].lines == LinesOf(items, s[i].storeId) && s[i].subtotal == Subtotal(s[i].lines)
    {
      assert s[i] in gs;
      var k :| 0 <= k < |gs| && gs[k] == s[i];
    }
  }

  lemma SameGroups(a: seq<Group>, b: seq<Group>)
    requires multiset(a) == multiset(b)
    ensures forall g :: g in a <==> g in b
  {
    forall g ensures g in a <==> g in b {
      assert g in a <==> g in multiset(a);
      assert g in b <==> g in multiset(b);
    }
  }

  /** Every line of the cart appears in exactly one group, the one of its
      store; groups are ordered by store id; each group lists its store's
      lines newest first with subtotal Σ unitPrice × qty. */
  lemma ViewCartGroups(db: Db, customerId: Id)
    ensures var step := GetActiveCart(db, customerId);
      var items := ItemsOfCart(step.db.cartItems, step.cart.id);
      var view := ViewCart(db, customerId).1;
      && view.cartId == step.cart.id
      && StoresAscending(view.groups)
      && (forall it :: it in items ==> HasGroup(view.groups, it.storeId))
      && (forall i :: 0 <= i < |view.groups| ==>
            var g := view.groups[i];
            && |g.lines| > 0
            && g.lines == LinesOf(Reverse(items), g.storeId)
            && (forall it :: it in g.lines <==> it in items && it.storeId == g.storeId)
            && g.subtotal == Subtotal(g.lines))
  {
    var step := GetActiveCart(db, customerId);
    var items := ItemsOfCart(step.db.cartItems, step.cart.id);
    var rev := Reverse(items);
    SortKeepsGroups(rev, GroupByStore(rev));
  }
}
