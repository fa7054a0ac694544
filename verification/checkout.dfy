/** POST /checkout: the cart is split into one order per store inside one
    all-or-nothing transaction that also decrements stock and clears the
    cart. A thrown HttpError inside the transaction rolls everything back. */
module Checkout {
  import opened Basics
  import opened Model
  import opened Cart

  /** Where a line's stock check and decrement read the inventory from: the
      records loaded with the cart before the transaction began (what the
      handler does), or the transaction's own current state. */
  datatype StockRead = Snapshot | Current

  predicate Refs(it: CartItem, v: Id) {
    IsSet(it.variantId) && it.variantId.value == v
  }

  /** `it.variant?.inventory` as loaded before the transaction. */
  function SnapshotInventory(db: Db, v: Id): Option<Inventory> {
    if v in db.variants && v in db.inventory then Some(db.inventory[v]) else None
  }

  /** A line that makes the handler's transaction throw: it names a variant
      whose loaded inventory is missing or below the line's quantity. */
  predicate Blocked(db: Db, it: CartItem) {
    IsSet(it.variantId) &&
    var inv := SnapshotInventory(db, it.variantId.value);
    inv.None? || inv.value.stockQty < it.qty
  }

  /** The inventory loop of one store's group. `snap` is the state read before
      the transaction, `inv` the transaction's current inventory. */
  function ApplyLines(snap: Db, mode: StockRead, lines: seq<CartItem>, inv: map<Id, Inventory>): Result<map<Id, Inventory>>
    decreases |lines|
  {
    if |lines| == 0 then Ok(inv)
    else
      var it := lines[0];
      if !IsSet(it.variantId) then ApplyLines(snap, mode, lines[1..], inv)
      else
        var v := it.variantId.value;
        var source := if mode == Snapshot then snap.inventory else inv;
        if !(v in snap.variants && v in source) then Err(Fail(400, "Inventory missing for variant"))
        else if source[v].stockQty < it.qty then Err(Fail(400, "Insufficient stock during checkout"))
        else ApplyLines(snap, mode, lines[1..], inv[v := source[v].(stockQty := source[v].stockQty - it.qty)])
  }

  /** `shippingFeePerStore[storeId]`, 0 for stores not listed. */
  function ShippingFee(fees: map<Id, Money>, storeId: Id): Money {
    if storeId in fees then fees[storeId] else 0
  }

  function ToOrderItems(lines: seq<CartItem>): (r: seq<OrderItem>)
    ensures |r| == |lines|
    ensures forall i :: 0 <= i < |lines| ==>
      r[i] == OrderItem(lines[i].productId, lines[i].variantId, lines[i].qty, lines[i].unitPrice)
  {
    if |lines| == 0 then []
    else [OrderItem(lines[0].productId, lines[0].variantId, lines[0].qty, lines[0].unitPrice)] + ToOrderItems(lines[1..])
  }

  /** The order created for one store's group. */
  function MakeOrder(id: Id, customerId: Id, g: Group, fees: map<Id, Money>): Order
    requires |g.lines| > 0
  {
    var subtotal := Subtotal(g.lines);
    var fee := ShippingFee(fees, g.storeId);
    Order(id, g.storeId, customerId, g.lines[0].currency, subtotal, fee, subtotal + fee,
          OrderPending, Unpaid, ToOrderItems(g.lines))
  }

  /** The `{ id, storeId, total, currency }` entry of the response. */
  datatype OrderSummary = OrderSummary(id: Id, storeId: Id, total: Money, currency: Currency)

  function Summary(o: Order): OrderSummary {
    OrderSummary(o.id, o.storeId, o.total, o.currency)
  }

  datatype TxState = TxState(inventory: map<Id, Inventory>, orders: seq<Order>, nextId: Id, created: seq<OrderSummary>)

  predicate NonEmptyGroups(gs: seq<Group>) {
    forall i :: 0 <= i < |gs| ==> |gs[i].lines| > 0
  }

  /** The body of the transaction, store group after store group: create the
      order, then check and decrement the group's variant lines. */
  function ProcessGroups(snap: Db, mode: StockRead, customerId: Id, fees: map<Id, Money>,
                         gs: seq<Group>, tx: TxState): Result<TxState>
    requires NonEmptyGroups(gs)
    decreases |gs|
  {
    if |gs| == 0 then Ok(tx)
    else
      var order := MakeOrder(tx.nextId, customerId, gs[0], fees);
      match ApplyLines(snap, mode, gs[0].lines, tx.inventory)
      case Err(e) => Err(e)
      case Ok(inv) =>
        ProcessGroups(snap, mode, customerId, fees, gs[1..],
                      TxState(inv, tx.orders + [order], tx.nextId + 1, tx.created + [Summary(order)]))
  }

  /** `cartItem.deleteMany({ where: { cartId } })` */
  function DropCart(items: seq<CartItem>, cartId: Id): (r: seq<CartItem>)
    ensures forall it :: it in r <==> it in items && it.cartId != cartId
  {
    if |items| == 0 then []
    else (if items[0].cartId == cartId then [] else [items[0]]) + DropCart(items[1..], cartId)
  }

  /** The lines checkout reads: those of the active cart, after find-or-create. */
  function CartLines(db: Db, customerId: Id): seq<CartItem> {
    var step := GetActiveCart(db, customerId);
    ItemsOfCart(step.db.cartItems, step.cart.id)
  }

  function CheckoutWith(mode: StockRead, db: Db, customerId: Id, fees: map<Id, Money>): (r: Outcome<seq<OrderSummary>>)
    ensures var db1 := GetActiveCart(db, customerId).db;
      && (r.result.Err? ==> r.db == db1)
      && r.db.(inventory := db1.inventory, orders := db1.orders, nextId := db1.nextId, cartItems := db1.cartItems) == db1
  {
    var step := GetActiveCart(db, customerId);
    var db1 := step.db;
    var items := ItemsOfCart(db1.cartItems, step.cart.id);
    if |items| == 0 then Outcome(db1, Err(Fail(400, "Cart is empty")))
    else
      var gs := GroupByStore(items);
      match ProcessGroups(db1, mode, customerId, fees, gs, TxState(db1.inventory, db1.orders, db1.nextId, []))
      case Err(e) => Outcome(db1, Err(e))
      case Ok(tx) =>
        Outcome(db1.(inventory := tx.inventory, orders := tx.orders, nextId := tx.nextId,
                     cartItems := DropCart(db1.cartItems, step.cart.id)),
                Ok(tx.created))
  }

  /** The handler as written: stock is checked against, and decremented from,
      the inventory loaded before the transaction. Any error leaves the state
      as find-or-create of the cart left it. */
  function Checkout(db: Db, customerId: Id, fees: map<Id, Money>): (r: Outcome<seq<OrderSummary>>)
    ensures r.result.Err? ==> r.db == GetActiveCart(db, customerId).db
  {
    CheckoutWith(Snapshot, db, customerId, fees)
  }

  /** The corrected handler: each line is checked against, and decremented
      from, the transaction's current inventory. */
  function CheckoutCorrected(db: Db, customerId: Id, fees: map<Id, Money>): (r: Outcome<seq<OrderSummary>>)
    ensures r.result.Err? ==> r.db == GetActiveCart(db, customerId).db
  {
    CheckoutWith(Current, db, customerId, fees)
  }

  /** The handler with its request body, checking stock against the
      transaction's current inventory. `None` is a body the schema
      rejects (a shipping fee that is not a decimal amount); it is refused
      after the cart step and before the cart is read. An absent fee record
      is the empty map. */
  function CheckoutRequest(db: Db, customerId: Id, body: Option<map<Id, Money>>): (r: Outcome<seq<OrderSummary>>)
    ensures body.None? ==> r == Outcome(GetActiveCart(db, customerId).db, Err(ValidationFailed))
    ensures body.Some? ==> r == CheckoutCorrected(db, customerId, body.value)
    ensures r.result.Err? ==> r.db == GetActiveCart(db, customerId).db
  {
    match body
    case None => Outcome(GetActiveCart(db, customerId).db, Err(ValidationFailed))
    case Some(fees) => CheckoutCorrected(db, customerId, fees)
  }

  function InitialTx(db: Db): TxState {
    TxState(db.inventory, db.orders, db.nextId, [])
  }

  /** A successful checkout is the transaction's result written back. */
  lemma CheckoutOkShape(mode: StockRead, db: Db, customerId: Id, fees: map<Id, Money>)
    ensures var r := CheckoutWith(mode, db, customerId, fees);
      var step := GetActiveCart(db, customerId);
      var items := CartLines(db, customerId);
      r.result.Ok? ==>
        && |items| > 0
        && var pg := ProcessGroups(step.db, mode, customerId, fees, GroupByStore(items), InitialTx(step.db));
        && pg.Ok?
        && r.db == step.db.(inventory := pg.value.inventory, orders := pg.value.orders, nextId := pg.value.nextId,
                            cartItems := DropCart(step.db.cartItems, step.cart.id))
        && r.result.value == pg.value.created
  {
  }

  // ---------------------------------------------------------------------
  // Failure

  lemma {:induction false} ApplyLinesSnapshotErr(snap: Db, lines: seq<CartItem>, inv: map<Id, Inventory>)
    ensures ApplyLines(snap, Snapshot, lines, inv).Err? <==> exists it :: it in lines && Blocked(snap, it)
    ensures ApplyLines(snap, Snapshot, lines, inv).Err? ==> ApplyLines(snap, Snapshot, lines, inv).error.status == 400
    decreases |lines|
  {
    if |lines| > 0 {
      assert forall it :: it in lines <==> it == lines[0] || it in lines[1..];
      var it := lines[0];
      if !IsSet(it.variantId) {
        ApplyLinesSnapshotErr(snap, lines[1..], inv);
      } else if !Blocked(snap, it) {
        var v := it.variantId.value;
        ApplyLinesSnapshotErr(snap, lines[1..], inv[v := snap.inventory[v].(stockQty := snap.inventory[v].stockQty - it.qty)]);
      }
    }
  }

  lemma {:induction false} ProcessGroupsSnapshotErr(snap: Db, customerId: Id, fees: map<Id, Money>, gs: seq<Group>, tx: TxState)
    requires NonEmptyGroups(gs)
    ensures ProcessGroups(snap, Snapshot, customerId, fees, gs, tx).Err? <==> exists it :: it in Flatten(gs) && Blocked(snap, it)
    ensures ProcessGroups(snap, Snapshot, customerId, fees, gs, tx).Err? ==>
      ProcessGroups(snap, Snapshot, customerId, fees, gs, tx).error.status == 400
    decreases |gs|
  {
    if |gs| > 0 {
      ApplyLinesSnapshotErr(snap, gs[0].lines, tx.inventory);
      assert forall it :: it in Flatten(gs) <==> it in gs[0].lines || it in Flatten(gs[1..]);
      ProcessGroupsCons(snap, Snapshot, customerId, fees, gs, tx);
      var a := ApplyLines(snap, Snapshot, gs[0].lines, tx.inventory);
      if a.Ok? {
        var order := MakeOrder(tx.nextId, customerId, gs[0], fees);
        ProcessGroupsSnapshotErr(snap, customerId, fees, gs[1..],
          TxState(a.value, tx.orders + [order], tx.nextId + 1, tx.created + [Summary(order)]));
      }
    }
  }

  lemma GroupedLinesAreCartLines(items: seq<CartItem>)
    ensures forall it :: it in Flatten(GroupByStore(items)) <==> it in items
  {
    GroupByStorePermutes(items);
    forall it ensures it in Flatten(GroupByStore(items)) <==> it in items {
      assert it in Flatten(GroupByStore(items)) <==> it in multiset(Flatten(GroupByStore(items)));
    }
  }

  /** An empty cart is refused with 400 before the transaction starts,
      whichever inventory the stock check reads. */
  lemma CheckoutEmptyCart(mode: StockRead, db: Db, customerId: Id, fees: map<Id, Money>)
    requires |CartLines(db, customerId)| == 0
    ensures CheckoutWith(mode, db, customerId, fees) ==
      Outcome(GetActiveCart(db, customerId).db, Err(Fail(400, "Cart is empty")))
    ensures HasActiveCart(db.carts, customerId) ==> CheckoutWith(mode, db, customerId, fees).db == db
  {
  }

  /** Atomicity: checkout of a non-empty cart fails, with 400 and no change
      at all, exactly when some line names a variant whose loaded inventory
      is missing or short, whichever store that line belongs to. */
  lemma CheckoutFailsIffBlocked(db: Db, customerId: Id, fees: map<Id, Money>)
    requires |CartLines(db, customerId)| > 0
    ensures var r := Checkout(db, customerId, fees);
      var db1 := GetActiveCart(db, customerId).db;
      && (r.result.Err? <==> exists it :: it in CartLines(db, customerId) && Blocked(db1, it))
      && (r.result.Err? ==> r.result.error.status == 400 && r.db == db1)
  {
    var db1 := GetActiveCart(db, customerId).db;
    var items := CartLines(db, customerId);
    var gs := GroupByStore(items);
    CheckoutErrShape(Snapshot, db, customerId, fees);
    ProcessGroupsSnapshotErr(db1, customerId, fees, gs, InitialTx(db1));
    GroupedLinesAreCartLines(items);
    BlockedTransfer(db1, Flatten(gs), items);
  }

  /** A failed transaction is the checkout's failure, with the cart step's state. */
  lemma CheckoutErrShape(mode: StockRead, db: Db, customerId: Id, fees: map<Id, Money>)
    requires |CartLines(db, customerId)| > 0
    ensures var r := CheckoutWith(mode, db, customerId, fees);
      var step := GetActiveCart(db, customerId);
      var pg := ProcessGroups(step.db, mode, customerId, fees, GroupByStore(CartLines(db, customerId)), InitialTx(step.db));
      && (r.result.Err? <==> pg.Err?)
      && (pg.Err? ==> r == Outcome(step.db, Err(pg.error)))
  {
  }

  lemma BlockedTransfer(db: Db, a: seq<CartItem>, b: seq<CartItem>)
    requires forall it :: it in a <==> it in b
    ensures (exists it :: it in a && Blocked(db, it)) <==> (exists it :: it in b && Blocked(db, it))
  {
  }

  // ---------------------------------------------------------------------
  // Orders

  /** The orders the transaction creates for `gs`, numbered from `firstId`. */
  function OrdersFrom(firstId: Id, customerId: Id, gs: seq<Group>, fees: map<Id, Money>): seq<Order>
    requires NonEmptyGroups(gs)
    decreases |gs|
  {
    if |gs| == 0 then []
    else [MakeOrder(firstId, customerId, gs[0], fees)] + OrdersFrom(firstId + 1, customerId, gs[1..], fees)
  }

  function Summaries(os: seq<Order>): (r: seq<OrderSummary>)
    ensures |r| == |os|
    ensures forall i :: 0 <= i < |os| ==> r[i] == Summary(os[i])
  {
    if |os| == 0 then [] else [Summary(os[0])] + Summaries(os[1..])
  }

  lemma {:induction false} OrdersFromAt(firstId: Id, customerId: Id, gs: seq<Group>, fees: map<Id, Money>)
    requires NonEmptyGroups(gs)
    ensures |OrdersFrom(firstId, customerId, gs, fees)| == |gs|
    ensures forall i :: 0 <= i < |gs| ==>
      OrdersFrom(firstId, customerId, gs, fees)[i] == MakeOrder(firstId + i, customerId, gs[i], fees)
    decreases |gs|
  {
    if |gs| > 0 {
      OrdersFromAt(firstId + 1, customerId, gs[1..], fees);
      OrdersFromCons(firstId, customerId, gs, fees);
      var os := OrdersFrom(firstId, customerId, gs, fees);
      var rest := OrdersFrom(firstId + 1, customerId, gs[1..], fees);
      forall i | 1 <= i < |gs|
        ensures os[i] == MakeOrder(firstId + i, customerId, gs[i], fees)
      {
        assert os[i] == rest[i - 1];
        assert gs[1..][i - 1] == gs[i];
      }
    }
  }

  /** Each group processed appends its order and its summary, in group order. */
  lemma {:induction false} ProcessGroupsOrders(snap: Db, mode: StockRead, customerId: Id, fees: map<Id, Money>, gs: seq<Group>, tx: TxState)
    requires NonEmptyGroups(gs)
    ensures var r := ProcessGroups(snap, mode, customerId, fees, gs, tx);
      r.Ok? ==>
        && r.value.orders == tx.orders + OrdersFrom(tx.nextId, customerId, gs, fees)
        && r.value.created == tx.created + Summaries(OrdersFrom(tx.nextId, customerId, gs, fees))
        && r.value.nextId == tx.nextId + |gs|
    decreases |gs|
  {
    if |gs| > 0 {
      var a := ApplyLines(snap, mode, gs[0].lines, tx.inventory);
      if a.Ok? {
        var order := MakeOrder(tx.nextId, customerId, gs[0], fees);
        var tx1 := TxState(a.value, tx.orders + [order], tx.nextId + 1, tx.created + [Summary(order)]);
        ProcessGroupsCons(snap, mode, customerId, fees, gs, tx);
        OrdersFromCons(tx.nextId, customerId, gs, fees);
        ProcessGroupsOrders(snap, mode, customerId, fees, gs[1..], tx1);
        var rest := OrdersFrom(tx.nextId + 1, customerId, gs[1..], fees);
        SummariesCons(order, rest);
        AppendCons(tx.orders, order, rest);
        AppendCons(tx.created, Summary(order), Summaries(rest));
      }
    }
  }

  /** One step of the group loop when the group's inventory pass succeeds. */
  lemma ProcessGroupsCons(snap: Db, mode: StockRead, customerId: Id, fees: map<Id, Money>, gs: seq<Group>, tx: TxState)
    requires NonEmptyGroups(gs) && |gs| > 0
    ensures var a := ApplyLines(snap, mode, gs[0].lines, tx.inventory);
      a.Err? ==> ProcessGroups(snap, mode, customerId, fees, gs, tx) == Err(a.error)
    ensures var order := MakeOrder(tx.nextId, customerId, gs[0], fees);
      ApplyLines(snap, mode, gs[0].lines, tx.inventory).Ok? ==>
      ProcessGroups(snap, mode, customerId, fees, gs, tx) ==
        ProcessGroups(snap, mode, customerId, fees, gs[1..],
          TxState(ApplyLines(snap, mode, gs[0].lines, tx.inventory).value,
                  tx.orders + [order], tx.nextId + 1, tx.created + [Summary(order)]))
  {
  }

  lemma OrdersFromCons(firstId: Id, customerId: Id, gs: seq<Group>, fees: map<Id, Money>)
    requires NonEmptyGroups(gs) && |gs| > 0
    ensures OrdersFrom(firstId, customerId, gs, fees) ==
      [MakeOrder(firstId, customerId, gs[0], fees)] + OrdersFrom(firstId + 1, customerId, gs[1..], fees)
  {
  }

  lemma SummariesCons(o: Order, rest: seq<Order>)
    ensures Summaries([o] + rest) == [Summary(o)] + Summaries(rest)
  {
    assert ([o] + rest)[1..] == rest;
  }

  lemma AppendCons<T>(a: seq<T>, x: T, rest: seq<T>)
    ensures a + [x] + rest == a + ([x] + rest)
  {
  }

  /** The orders a successful checkout appended to the orders table. */
  function NewOrders(before: Db, after: Db): seq<Order>
    requires |before.orders| <= |after.orders|
  {
    after.orders[|before.orders|..]
  }

  /** `o` is the order of `items`' lines at its store: numbered `id`,
      PENDING and UNPAID, holding exactly that store's lines (quantity and
      price snapshot kept), subtotal Σ unitPrice × qty, the store's fee (0
      when absent) and total = subtotal + fee. */
  ghost predicate OrderFor(items: seq<CartItem>, o: Order, id: Id, customerId: Id, fees: map<Id, Money>) {
    var lines := LinesOf(items, o.storeId);
    && |lines| > 0
    && o.id == id
    && o.customerId == customerId
    && o.status == OrderPending && o.paymentStatus == Unpaid
    && o.items == ToOrderItems(lines)
    && o.currency == lines[0].currency
    && o.subtotal == Subtotal(lines)
    && o.shippingFee == ShippingFee(fees, o.storeId)
    && o.total == o.subtotal + o.shippingFee
  }

  /** `news` is the order split of the cart lines `items`: one order per
      store present, numbered consecutively from `firstId`. */
  ghost predicate SplitByStore(items: seq<CartItem>, news: seq<Order>, firstId: Id, customerId: Id, fees: map<Id, Money>) {
    && (forall i, j :: 0 <= i < j < |news| ==> news[i].storeId != news[j].storeId)
    && (forall it :: it in items ==> exists i :: 0 <= i < |news| && news[i].storeId == it.storeId)
    && (forall i :: 0 <= i < |news| ==> OrderFor(items, news[i], firstId + i, customerId, fees))
  }

  lemma OrderOfGroup(items: seq<CartItem>, g: Group, id: Id, customerId: Id, fees: map<Id, Money>)
    requires |g.lines| > 0 && g.lines == LinesOf(items, g.storeId)
    ensures OrderFor(items, MakeOrder(id, customerId, g, fees), id, customerId, fees)
  {
  }

  lemma OrdersOfGroups(items: seq<CartItem>, gs: seq<Group>, firstId: Id, customerId: Id, fees: map<Id, Money>)
    requires GroupsOf(items, gs)
    ensures SplitByStore(items, OrdersFrom(firstId, customerId, gs, fees), firstId, customerId, fees)
  {
    var news := OrdersFrom(firstId, customerId, gs, fees);
    OrdersFromAt(firstId, customerId, gs, fees);
    forall i | 0 <= i < |news| ensures OrderFor(items, news[i], firstId + i, customerId, fees) {
      OrderOfGroup(items, gs[i], firstId + i, customerId, fees);
    }
    forall it | it in items ensures exists i :: 0 <= i < |news| && news[i].storeId == it.storeId {
      var i :| 0 <= i < |gs| && gs[i].storeId == it.storeId;
      assert news[i].storeId == it.storeId;
    }
  }

  /** Order splitting: a successful checkout, as written or corrected,
      appends to the orders table exactly the split of the cart by store,
      and answers their summaries. */
  lemma CheckoutSplitsOrders(mode: StockRead, db: Db, customerId: Id, fees: map<Id, Money>)
    ensures var r := CheckoutWith(mode, db, customerId, fees);
      var db1 := GetActiveCart(db, customerId).db;
      r.result.Ok? ==>
        && |db1.orders| <= |r.db.orders|
        && r.db.orders[..|db1.orders|] == db1.orders
        && SplitByStore(CartLines(db, customerId), NewOrders(db1, r.db), db1.nextId, customerId, fees)
        && r.result.value == Summaries(NewOrders(db1, r.db))
  {
    var step := GetActiveCart(db, customerId);
    var db1 := step.db;
    var items := CartLines(db, customerId);
    CheckoutOkShape(mode, db, customerId, fees);
    if CheckoutWith(mode, db, customerId, fees).result.Ok? {
      var gs := GroupByStore(items);
      ProcessGroupsOrders(db1, mode, customerId, fees, gs, InitialTx(db1));
      OrdersOfGroups(items, gs, db1.nextId, customerId, fees);
      var news := OrdersFrom(db1.nextId, customerId, gs, fees);
      assert (db1.orders + news)[|db1.orders|..] == news;
      assert (db1.orders + news)[..|db1.orders|] == db1.orders;
      assert [] + Summaries(news) == Summaries(news);
    }
  }

  // ---------------------------------------------------------------------
  // Inventory, as written

  predicate Referenced(lines: seq<CartItem>, v: Id) {
    exists it :: it in lines && Refs(it, v)
  }

  /** Starting from the loaded inventory `s`, the writes for the lines in
      `done` left `inv`: a variant no line names is untouched, and a named
      variant holds the loaded stock minus the quantity of one of its lines
      (the last one written), which passed the check against the loaded stock. */
  ghost predicate SnapshotWrites(s: map<Id, Inventory>, inv: map<Id, Inventory>, done: seq<CartItem>) {
    && inv.Keys == s.Keys
    && (forall it :: it in done && IsSet(it.variantId) ==> it.variantId.value in s)
    && (forall v :: v in s ==> WroteVariant(s, inv, done, v))
  }

  /** The record of variant `v` after the writes for `done`. */
  ghost predicate WroteVariant(s: map<Id, Inventory>, inv: map<Id, Inventory>, done: seq<CartItem>, v: Id) {
    && v in s && v in inv
    && (!Referenced(done, v) ==> inv[v] == s[v])
    && (Referenced(done, v) ==>
          exists it :: it in done && Refs(it, v) && it.qty <= s[v].stockQty
                       && inv[v] == s[v].(stockQty := s[v].stockQty - it.qty))
  }

  lemma ReferencedAppend(done: seq<CartItem>, it: CartItem)
    ensures forall w :: Referenced(done + [it], w) <==> Referenced(done, w) || Refs(it, w)
  {
    forall w ensures Referenced(done + [it], w) <==> Referenced(done, w) || Refs(it, w) {
      if Referenced(done + [it], w) {
        var x :| x in done + [it] && Refs(x, w);
        if x != it { assert x in done; }
      }
      if Referenced(done, w) {
        var x :| x in done && Refs(x, w);
        assert x in done + [it];
      }
      assert it in done + [it];
    }
  }

  lemma SnapshotWritesStep(s: map<Id, Inventory>, inv: map<Id, Inventory>, done: seq<CartItem>, it: CartItem)
    requires SnapshotWrites(s, inv, done)
    requires IsSet(it.variantId) && it.variantId.value in s && it.qty <= s[it.variantId.value].stockQty
    ensures var v := it.variantId.value;
      SnapshotWrites(s, inv[v := s[v].(stockQty := s[v].stockQty - it.qty)], done + [it])
  {
    var v := it.variantId.value;
    var inv' := inv[v := s[v].(stockQty := s[v].stockQty - it.qty)];
    var done' := done + [it];
    ReferencedAppend(done, it);
    forall x | x in done' && IsSet(x.variantId) ensures x.variantId.value in s {
      if x != it { assert x in done; }
    }
    forall w | w in s ensures WroteVariant(s, inv', done', w) {
      if w == v {
        assert it in done';
      } else {
        assert WroteVariant(s, inv, done, w);
        if Referenced(done, w) {
          var x :| x in done && Refs(x, w) && x.qty <= s[w].stockQty && inv[w] == s[w].(stockQty := s[w].stockQty - x.qty);
          assert x in done';
        }
      }
    }
  }

  lemma SnapshotWritesSkip(s: map<Id, Inventory>, inv: map<Id, Inventory>, done: seq<CartItem>, it: CartItem)
    requires SnapshotWrites(s, inv, done)
    requires !IsSet(it.variantId)
    ensures SnapshotWrites(s, inv, done + [it])
  {
    var done' := done + [it];
    assert forall x :: x in done' <==> x in done || x == it;
    forall w | w in s ensures Referenced(done', w) <==> Referenced(done, w) {
      if Referenced(done', w) {
        var x :| x in done' && Refs(x, w);
        assert x in done;
      }
    }
  }

  lemma {:induction false} ApplyLinesSnapshotOk(snap: Db, lines: seq<CartItem>, inv: map<Id, Inventory>, done: seq<CartItem>)
    requires SnapshotWrites(snap.inventory, inv, done)
    ensures ApplyLines(snap, Snapshot, lines, inv).Ok? ==>
      SnapshotWrites(snap.inventory, ApplyLines(snap, Snapshot, lines, inv).value, done + lines)
    decreases |lines|
  {
    if |lines| > 0 && ApplyLines(snap, Snapshot, lines, inv).Ok? {
      var it := lines[0];
      SnapshotOneLine(snap, lines, inv, done);
      ApplyLinesSnapshotOk(snap, lines[1..], SnapshotNext(snap, it, inv), done + [it]);
      assert done + lines == (done + [it]) + lines[1..];
    }
  }

  /** The inventory after one line that passed the snapshot check. */
  function SnapshotNext(snap: Db, it: CartItem, inv: map<Id, Inventory>): map<Id, Inventory> {
    var s := snap.inventory;
    if IsSet(it.variantId) && it.variantId.value in s then
      inv[it.variantId.value := s[it.variantId.value].(stockQty := s[it.variantId.value].stockQty - it.qty)]
    else inv
  }

  lemma SnapshotOneLine(snap: Db, lines: seq<CartItem>, inv: map<Id, Inventory>, done: seq<CartItem>)
    requires |lines| > 0
    requires SnapshotWrites(snap.inventory, inv, done)
    requires ApplyLines(snap, Snapshot, lines, inv).Ok?
    ensures ApplyLines(snap, Snapshot, lines, inv) == ApplyLines(snap, Snapshot, lines[1..], SnapshotNext(snap, lines[0], inv))
    ensures SnapshotWrites(snap.inventory, SnapshotNext(snap, lines[0], inv), done + [lines[0]])
  {
    var it := lines[0];
    SnapshotUnfold(snap, lines, inv);
    if !IsSet(it.variantId) {
      SnapshotWritesSkip(snap.inventory, inv, done, it);
    } else {
      SnapshotWritesStep(snap.inventory, inv, done, it);
    }
  }

  lemma SnapshotNextSet(snap: Db, it: CartItem, inv: map<Id, Inventory>)
    requires IsSet(it.variantId) && it.variantId.value in snap.inventory
    ensures var v := it.variantId.value;
      SnapshotNext(snap, it, inv) == inv[v := snap.inventory[v].(stockQty := snap.inventory[v].stockQty - it.qty)]
  {
  }

  /** One step of the snapshot loop that did not fail. */
  lemma SnapshotUnfold(snap: Db, lines: seq<CartItem>, inv: map<Id, Inventory>)
    requires |lines| > 0
    requires ApplyLines(snap, Snapshot, lines, inv).Ok?
    ensures ApplyLines(snap, Snapshot, lines, inv) == ApplyLines(snap, Snapshot, lines[1..], SnapshotNext(snap, lines[0], inv))
    ensures IsSet(lines[0].variantId) ==>
      lines[0].variantId.value in snap.inventory && lines[0].qty <= snap.inventory[lines[0].variantId.value].stockQty
  {
    var it := lines[0];
    var a := ApplyLines(snap, Snapshot, lines, inv);
    if IsSet(it.variantId) {
      var v := it.variantId.value;
      assert v in snap.variants && v in snap.inventory;
      assert it.qty <= snap.inventory[v].stockQty;
      SnapshotNextSet(snap, it, inv);
    } else {
      assert a == ApplyLines(snap, Snapshot, lines[1..], inv);
    }
  }

  lemma {:induction false} ProcessGroupsSnapshotInventory(snap: Db, customerId: Id, fees: map<Id, Money>, gs: seq<Group>, tx: TxState, done: seq<CartItem>)
    requires NonEmptyGroups(gs)
    requires SnapshotWrites(snap.inventory, tx.inventory, done)
    ensures var r := ProcessGroups(snap, Snapshot, customerId, fees, gs, tx);
      r.Ok? ==> SnapshotWrites(snap.inventory, r.value.inventory, done + Flatten(gs))
    decreases |gs|
  {
    if |gs| > 0 {
      ApplyLinesSnapshotOk(snap, gs[0].lines, tx.inventory, done);
      var a := ApplyLines(snap, Snapshot, gs[0].lines, tx.inventory);
      if a.Ok? {
        var order := MakeOrder(tx.nextId, customerId, gs[0], fees);
        ProcessGroupsCons(snap, Snapshot, customerId, fees, gs, tx);
        assert done + Flatten(gs) == (done + gs[0].lines) + Flatten(gs[1..]);
        ProcessGroupsSnapshotInventory(snap, customerId, fees, gs[1..],
          TxState(a.value, tx.orders + [order], tx.nextId + 1, tx.created + [Summary(order)]), done + gs[0].lines);
      }
    }
  }

  lemma SnapshotWritesTransfer(s: map<Id, Inventory>, inv: map<Id, Inventory>, a: seq<CartItem>, b: seq<CartItem>)
    requires SnapshotWrites(s, inv, a)
    requires forall it :: it in a <==> it in b
    ensures SnapshotWrites(s, inv, b)
  {
    forall v ensures Referenced(a, v) <==> Referenced(b, v) {
      if Referenced(a, v) { var x :| x in a && Refs(x, v); assert x in b; }
      if Referenced(b, v) { var x :| x in b && Refs(x, v); assert x in a; }
    }
  }

  lemma TxSnapshotWrites(db1: Db, customerId: Id, fees: map<Id, Money>, items: seq<CartItem>, tx: TxState)
    requires ProcessGroups(db1, Snapshot, customerId, fees, GroupByStore(items), InitialTx(db1)) == Ok(tx)
    ensures SnapshotWrites(db1.inventory, tx.inventory, items)
  {
    var gs := GroupByStore(items);
    assert NonEmptyGroups(gs);
    GroupedLinesAreCartLines(items);
    GroupsSnapshotWrites(db1, customerId, fees, gs, tx, items);
  }

  lemma GroupsSnapshotWrites(db1: Db, customerId: Id, fees: map<Id, Money>, gs: seq<Group>, tx: TxState, items: seq<CartItem>)
    requires NonEmptyGroups(gs)
    requires ProcessGroups(db1, Snapshot, customerId, fees, gs, InitialTx(db1)) == Ok(tx)
    requires forall it :: it in Flatten(gs) <==> it in items
    ensures SnapshotWrites(db1.inventory, tx.inventory, items)
  {
    assert SnapshotWrites(db1.inventory, db1.inventory, []);
    ProcessGroupsSnapshotInventory(db1, customerId, fees, gs, InitialTx(db1), []);
    assert [] + Flatten(gs) == Flatten(gs);
    SnapshotWritesTransfer(db1.inventory, tx.inventory, Flatten(gs), items);
  }

  /** Stock after a successful checkout, as written: a variant no cart line
      names keeps its record; a named variant holds the loaded stock minus
      the quantity of one of its lines, which is never negative. All checks
      and writes use the stock loaded before the transaction, so when two
      lines name the same variant the last write wins. */
  lemma CheckoutInventory(db: Db, customerId: Id, fees: map<Id, Money>)
    ensures var r := Checkout(db, customerId, fees);
      var s := GetActiveCart(db, customerId).db.inventory;
      var items := CartLines(db, customerId);
      r.result.Ok? ==> StockAfter(s, r.db.inventory, items)
  {
    var step := GetActiveCart(db, customerId);
    var items := CartLines(db, customerId);
    CheckoutOkShape(Snapshot, db, customerId, fees);
    if Checkout(db, customerId, fees).result.Ok? {
      var tx := ProcessGroups(step.db, Snapshot, customerId, fees, GroupByStore(items), InitialTx(step.db)).value;
      TxSnapshotWrites(step.db, customerId, fees, items, tx);
      assert Checkout(db, customerId, fees).db.inventory == tx.inventory;
      SnapshotWritesMeaning(step.db.inventory, tx.inventory, items);
    }
  }

  /** Stock `inv` after the lines `items` were written over the loaded
      stock `s`: the same variants; a variant no line names keeps its
      record; a named variant keeps its threshold and holds the loaded stock
      minus the quantity of one of its lines, which is never negative. */
  ghost predicate StockAfter(s: map<Id, Inventory>, inv: map<Id, Inventory>, items: seq<CartItem>) {
    && inv.Keys == s.Keys
    && (forall v :: v in s && !Referenced(items, v) ==> inv[v] == s[v])
    && (forall v :: v in s && Referenced(items, v) ==>
          && inv[v].stockQty >= 0
          && inv[v].lowStockThreshold == s[v].lowStockThreshold
          && exists it :: it in items && Refs(it, v) && inv[v].stockQty == s[v].stockQty - it.qty)
  }

  lemma SnapshotWritesMeaning(s: map<Id, Inventory>, inv: map<Id, Inventory>, items: seq<CartItem>)
    requires SnapshotWrites(s, inv, items)
    ensures StockAfter(s, inv, items)
  {
    forall v | v in s && Referenced(items, v)
      ensures inv[v].stockQty >= 0
      ensures exists it :: it in items && Refs(it, v) && inv[v].stockQty == s[v].stockQty - it.qty
    {
      var it :| it in items && Refs(it, v) && it.qty <= s[v].stockQty
                && inv[v] == s[v].(stockQty := s[v].stockQty - it.qty);
    }
  }

  /** Each variant appears on at most one line. */
  predicate VariantsDistinct(items: seq<CartItem>) {
    forall i, j :: 0 <= i < j < |items| && IsSet(items[i].variantId) && IsSet(items[j].variantId) ==>
      items[i].variantId != items[j].variantId
  }

  lemma SnapshotWritesDistinct(s: map<Id, Inventory>, inv: map<Id, Inventory>, items: seq<CartItem>)
    requires SnapshotWrites(s, inv, items)
    requires VariantsDistinct(items)
    ensures forall it :: it in items && IsSet(it.variantId) ==>
      && it.variantId.value in s
      && it.variantId.value in inv
      && inv[it.variantId.value].stockQty == s[it.variantId.value].stockQty - it.qty >= 0
  {
    forall it | it in items && IsSet(it.variantId)
      ensures it.variantId.value in s
      ensures it.variantId.value in inv
      ensures inv[it.variantId.value].stockQty == s[it.variantId.value].stockQty - it.qty >= 0
    {
      var v := it.variantId.value;
      assert Refs(it, v);
      var x :| x in items && Refs(x, v) && x.qty <= s[v].stockQty && inv[v] == s[v].(stockQty := s[v].stockQty - x.qty);
      var i :| 0 <= i < |items| && items[i] == it;
      var j :| 0 <= j < |items| && items[j] == x;
      assert i == j;
    }
  }

  /** When each variant appears on at most one cart line, every variant line
      leaves its variant at the loaded stock minus its quantity, never negative. */
  lemma CheckoutStockPerLine(db: Db, customerId: Id, fees: map<Id, Money>)
    requires VariantsDistinct(CartLines(db, customerId))
    ensures var r := Checkout(db, customerId, fees);
      var s := GetActiveCart(db, customerId).db.inventory;
      r.result.Ok? ==>
        forall it :: it in CartLines(db, customerId) && IsSet(it.variantId) ==>
          && it.variantId.value in s
          && it.variantId.value in r.db.inventory
          && r.db.inventory[it.variantId.value].stockQty == s[it.variantId.value].stockQty - it.qty >= 0
  {
    var step := GetActiveCart(db, customerId);
    var items := CartLines(db, customerId);
    CheckoutOkShape(Snapshot, db, customerId, fees);
    if Checkout(db, customerId, fees).result.Ok? {
      var tx := ProcessGroups(step.db, Snapshot, customerId, fees, GroupByStore(items), InitialTx(step.db)).value;
      TxSnapshotWrites(step.db, customerId, fees, items, tx);
      SnapshotWritesDistinct(step.db.inventory, tx.inventory, items);
    }
  }

  /** A successful checkout, as written or corrected, leaves the cart row
      without lines; the lines of other carts are untouched. */
  lemma CheckoutClearsCart(mode: StockRead, db: Db, customerId: Id, fees: map<Id, Money>)
    ensures var r := CheckoutWith(mode, db, customerId, fees);
      var step := GetActiveCart(db, customerId);
      r.result.Ok? ==>
        && step.cart in r.db.carts
        && ItemsOfCart(r.db.cartItems, step.cart.id) == []
        && (forall it :: it in r.db.cartItems <==> it in step.db.cartItems && it.cartId != step.cart.id)
  {
    var r := CheckoutWith(mode, db, customerId, fees);
    var step := GetActiveCart(db, customerId);
  }
}
