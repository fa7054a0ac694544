/** Stock accounting of checkout. The corrected handler checks and
    decrements each line against the transaction's current inventory, so a
    variant ends at its loaded stock minus the total quantity ordered, and
    checkout fails exactly when some variant's total demand cannot be met.
    The handler as written checks every line against the stock loaded
    before the transaction, and two lines of one variant oversell it. */
module Stock {
  import opened Basics
  import opened Model
  import opened Cart
  import opened Checkout

  /** Σ qty over the lines of `lines` that name variant `v`. */
  function TotalQty(lines: seq<CartItem>, v: Id): nat {
    if |lines| == 0 then 0
    else TotalQty(lines[..|lines| - 1], v) + (if Refs(lines[|lines| - 1], v) then lines[|lines| - 1].qty else 0)
  }

  lemma {:induction false} TotalQtyAppend(a: seq<CartItem>, b: seq<CartItem>, v: Id)
    ensures TotalQty(a + b, v) == TotalQty(a, v) + TotalQty(b, v)
    decreases |b|
  {
    if |b| == 0 {
      assert a + b == a;
    } else {
      var b' := b[..|b| - 1];
      assert (a + b)[..|a + b| - 1] == a + b';
      assert (a + b)[|a + b| - 1] == b[|b| - 1];
      TotalQtyAppend(a, b', v);
    }
  }

  lemma TotalQtySingle(it: CartItem, v: Id)
    ensures TotalQty([it], v) == if Refs(it, v) then it.qty else 0
  {
    assert [it][..0] == [];
  }

  /** A positive total is carried by some line naming the variant. */
  lemma {:induction false} TotalQtyWitness(lines: seq<CartItem>, v: Id)
    requires TotalQty(lines, v) > 0
    ensures exists it :: it in lines && Refs(it, v)
    decreases |lines|
  {
    var pre := lines[..|lines| - 1];
    var last := lines[|lines| - 1];
    if !Refs(last, v) || last.qty == 0 {
      TotalQtyWitness(pre, v);
      var it :| it in pre && Refs(it, v);
      assert it in lines;
    } else {
      assert last in lines;
    }
  }

  /** The total depends only on the lines, not on their order. */
  lemma {:induction false} TotalQtyPermutation(a: seq<CartItem>, b: seq<CartItem>, v: Id)
    requires multiset(a) == multiset(b)
    ensures TotalQty(a, v) == TotalQty(b, v)
    decreases |a|
  {
    if |a| == 0 {
      assert |b| == |multiset(b)| == 0;
    } else {
      var x := a[|a| - 1];
      var a' := a[..|a| - 1];
      assert a == a' + [x];
      assert x in multiset(b);
      var k :| 0 <= k < |b| && b[k] == x;
      var b1, b2 := b[..k], b[k + 1..];
      assert b == b1 + [x] + b2;
      MultisetRemove(a', x, b1, b2);
      TotalQtyPermutation(a', b1 + b2, v);
      TotalQtyInsert(b1, x, b2, v);
      TotalQtyAppend(a', [x], v);
      TotalQtySingle(x, v);
    }
  }

  lemma MultisetRemove(a: seq<CartItem>, x: CartItem, b1: seq<CartItem>, b2: seq<CartItem>)
    requires multiset(a + [x]) == multiset(b1 + [x] + b2)
    ensures multiset(a) == multiset(b1 + b2)
  {
    assert multiset(a + [x]) == multiset(a) + multiset{x};
    assert multiset(b1 + [x] + b2) == multiset(b1 + b2) + multiset{x};
    forall y ensures multiset(a)[y] == multiset(b1 + b2)[y] {
      assert (multiset(a) + multiset{x})[y] == (multiset(b1 + b2) + multiset{x})[y];
    }
  }

  lemma TotalQtyInsert(b1: seq<CartItem>, x: CartItem, b2: seq<CartItem>, v: Id)
    ensures TotalQty(b1 + [x] + b2, v) == TotalQty(b1 + b2, v) + (if Refs(x, v) then x.qty else 0)
  {
    TotalQtyAppend(b1, b2, v);
    TotalQtyAppend(b1 + [x], b2, v);
    TotalQtyAppend(b1, [x], v);
    TotalQtySingle(x, v);
  }

  /** Line `it` can be served when all of `all` is ordered: it names no
      variant, or its variant has an inventory record holding at least the
      total quantity `all` orders of it. */
  predicate Fits(snap: Db, all: seq<CartItem>, it: CartItem) {
    IsSet(it.variantId) ==>
      var v := it.variantId.value;
      v in snap.variants && v in snap.inventory && TotalQty(all, v) <= snap.inventory[v].stockQty
  }

  /** Some line of `lines` cannot be served when all of `all` is ordered. */
  predicate Overdrawn(snap: Db, all: seq<CartItem>, lines: seq<CartItem>) {
    exists it :: it in lines && !Fits(snap, all, it)
  }

  /** The transaction's inventory after the corrected writes for `done`:
      each variant holds its loaded stock minus the total `done` ordered of
      it, and every line of `done` could be served. */
  ghost predicate CurrentWrites(snap: Db, inv: map<Id, Inventory>, done: seq<CartItem>) {
    && inv.Keys == snap.inventory.Keys
    && (forall v :: v in snap.inventory ==>
          inv[v] == snap.inventory[v].(stockQty := snap.inventory[v].stockQty - TotalQty(done, v)))
    && (forall it :: it in done ==> Fits(snap, done, it))
  }

  lemma CurrentWritesStart(snap: Db)
    ensures CurrentWrites(snap, snap.inventory, [])
  {
  }

  /** A line naming no variant changes nothing. */
  lemma CurrentWritesSkip(snap: Db, inv: map<Id, Inventory>, done: seq<CartItem>, it: CartItem)
    requires CurrentWrites(snap, inv, done)
    requires !IsSet(it.variantId)
    ensures CurrentWrites(snap, inv, done + [it])
  {
    forall v ensures TotalQty(done + [it], v) == TotalQty(done, v) {
      TotalQtyAppend(done, [it], v);
      TotalQtySingle(it, v);
    }
    forall x | x in done + [it] ensures Fits(snap, done + [it], x) {
      if x != it { assert x in done; }
    }
  }

  /** A served line of variant `v` moves its stock down by its quantity. */
  lemma CurrentWritesStep(snap: Db, inv: map<Id, Inventory>, done: seq<CartItem>, it: CartItem)
    requires CurrentWrites(snap, inv, done)
    requires IsSet(it.variantId)
    requires it.variantId.value in snap.variants && it.variantId.value in inv
    requires it.qty <= inv[it.variantId.value].stockQty
    ensures var v := it.variantId.value;
      CurrentWrites(snap, inv[v := inv[v].(stockQty := inv[v].stockQty - it.qty)], done + [it])
  {
    var v := it.variantId.value;
    var s := snap.inventory;
    var inv' := inv[v := inv[v].(stockQty := inv[v].stockQty - it.qty)];
    var done' := done + [it];
    forall w ensures TotalQty(done', w) == TotalQty(done, w) + (if w == v then it.qty else 0) {
      TotalQtyAppend(done, [it], w);
      TotalQtySingle(it, w);
    }
    forall w | w in s ensures inv'[w] == s[w].(stockQty := s[w].stockQty - TotalQty(done', w)) {
    }
    forall x | x in done' ensures Fits(snap, done', x) {
      if x != it {
        assert x in done;
        assert Fits(snap, done, x);
      }
    }
  }

  /** The corrected inventory loop of one group: it fails, with 400, exactly
      when one of its lines cannot be served once everything up to the end
      of `all` is ordered... stated here for `all` = `done` + `lines`. */
  lemma {:induction false} ApplyLinesCurrent(snap: Db, lines: seq<CartItem>, inv: map<Id, Inventory>, done: seq<CartItem>)
    requires CurrentWrites(snap, inv, done)
    ensures var r := ApplyLines(snap, Current, lines, inv);
      && (r.Err? <==> Overdrawn(snap, done + lines, lines))
      && (r.Err? ==> r.error.status == 400)
      && (r.Ok? ==> CurrentWrites(snap, r.value, done + lines))
    decreases |lines|
  {
    if |lines| == 0 {
      assert done + lines == done;
    } else {
      var it := lines[0];
      var rest := lines[1..];
      var all := done + lines;
      assert all == (done + [it]) + rest;
      assert forall x :: x in lines <==> x == it || x in rest;
      if !IsSet(it.variantId) {
        assert ApplyLines(snap, Current, lines, inv) == ApplyLines(snap, Current, rest, inv);
        CurrentWritesSkip(snap, inv, done, it);
        ApplyLinesCurrent(snap, rest, inv, done + [it]);
      } else {
        var v := it.variantId.value;
        TotalQtyAppend(done, [it], v);
        TotalQtySingle(it, v);
        TotalQtyAppend(done + [it], rest, v);
        if !(v in snap.variants && v in inv) {
          assert !Fits(snap, all, it);
        } else if inv[v].stockQty < it.qty {
          assert !Fits(snap, all, it);
        } else {
          var inv' := inv[v := inv[v].(stockQty := inv[v].stockQty - it.qty)];
          assert ApplyLines(snap, Current, lines, inv) == ApplyLines(snap, Current, rest, inv');
          CurrentWritesStep(snap, inv, done, it);
          ApplyLinesCurrent(snap, rest, inv', done + [it]);
          if !Fits(snap, all, it) {
            TotalQtyWitness(rest, v);
            var x :| x in rest && Refs(x, v);
            assert !Fits(snap, all, x);
          }
        }
      }
    }
  }

  /** Lines already served stay servable unless the later lines overdraw
      their variant, in which case some later line is the one refused. */
  lemma OverdrawnMoves(snap: Db, done: seq<CartItem>, later: seq<CartItem>, it: CartItem)
    requires it in done && Fits(snap, done, it)
    requires !Fits(snap, done + later, it)
    ensures Overdrawn(snap, done + later, later)
  {
    var v := it.variantId.value;
    TotalQtyAppend(done, later, v);
    TotalQtyWitness(later, v);
    var x :| x in later && Refs(x, v);
    assert !Fits(snap, done + later, x);
  }

  /** A group's refusal is a refusal for the whole order too. */
  lemma OverdrawnGrows(snap: Db, done: seq<CartItem>, later: seq<CartItem>, lines: seq<CartItem>)
    requires Overdrawn(snap, done, lines)
    ensures Overdrawn(snap, done + later, lines)
  {
    var it :| it in lines && !Fits(snap, done, it);
    if IsSet(it.variantId) {
      TotalQtyAppend(done, later, it.variantId.value);
    }
  }

  lemma {:induction false} ProcessGroupsCurrent(snap: Db, customerId: Id, fees: map<Id, Money>, gs: seq<Group>, tx: TxState, done: seq<CartItem>)
    requires NonEmptyGroups(gs)
    requires CurrentWrites(snap, tx.inventory, done)
    ensures var r := ProcessGroups(snap, Current, customerId, fees, gs, tx);
      && (r.Err? <==> Overdrawn(snap, done + Flatten(gs), Flatten(gs)))
      && (r.Err? ==> r.error.status == 400)
      && (r.Ok? ==> CurrentWrites(snap, r.value.inventory, done + Flatten(gs)))
    decreases |gs|
  {
    if |gs| == 0 {
      assert done + Flatten(gs) == done;
    } else {
      var g := gs[0].lines;
      var restLines := Flatten(gs[1..]);
      var all := done + Flatten(gs);
      assert Flatten(gs) == g + restLines;
      assert all == (done + g) + restLines;
      assert forall it :: it in Flatten(gs) <==> it in g || it in restLines;
      ApplyLinesCurrent(snap, g, tx.inventory, done);
      ProcessGroupsCons(snap, Current, customerId, fees, gs, tx);
      var a := ApplyLines(snap, Current, g, tx.inventory);
      if a.Err? {
        OverdrawnGrows(snap, done + g, restLines, g);
      } else {
        var order := MakeOrder(tx.nextId, customerId, gs[0], fees);
        var tx1 := TxState(a.value, tx.orders + [order], tx.nextId + 1, tx.created + [Summary(order)]);
        ProcessGroupsCurrent(snap, customerId, fees, gs[1..], tx1, done + g);
        if Overdrawn(snap, all, Flatten(gs)) {
          var it :| it in Flatten(gs) && !Fits(snap, all, it);
          if it in g {
            assert it in done + g;
            OverdrawnMoves(snap, done + g, restLines, it);
          }
        }
      }
    }
  }

  lemma OverdrawnSameLines(snap: Db, a: seq<CartItem>, b: seq<CartItem>)
    requires multiset(a) == multiset(b)
    ensures Overdrawn(snap, a, a) <==> Overdrawn(snap, b, b)
    ensures forall it :: Fits(snap, a, it) <==> Fits(snap, b, it)
  {
    forall it ensures Fits(snap, a, it) <==> Fits(snap, b, it) {
      if IsSet(it.variantId) {
        TotalQtyPermutation(a, b, it.variantId.value);
      }
    }
    forall it ensures it in a <==> it in b {
      assert it in a <==> it in multiset(a);
      assert it in b <==> it in multiset(b);
    }
  }

  /** Stock `inv` after the corrected checkout of `items` over the loaded
      stock `s`: the same variants, each at its loaded stock minus the total
      quantity ordered of it, and no variant that was ordered below zero. */
  ghost predicate StockAfterCorrected(s: map<Id, Inventory>, inv: map<Id, Inventory>, items: seq<CartItem>) {
    && inv.Keys == s.Keys
    && (forall v :: v in s ==> inv[v] == s[v].(stockQty := s[v].stockQty - TotalQty(items, v)))
    && (forall it :: it in items && IsSet(it.variantId) ==>
          it.variantId.value in inv && inv[it.variantId.value].stockQty >= 0)
  }

  lemma TxCurrent(db1: Db, customerId: Id, fees: map<Id, Money>, items: seq<CartItem>)
    ensures var pg := ProcessGroups(db1, Current, customerId, fees, GroupByStore(items), InitialTx(db1));
      && (pg.Err? <==> Overdrawn(db1, items, items))
      && (pg.Err? ==> pg.error.status == 400)
      && (pg.Ok? ==> StockAfterCorrected(db1.inventory, pg.value.inventory, items))
  {
    var gs := GroupByStore(items);
    var flat := Flatten(gs);
    CurrentWritesStart(db1);
    ProcessGroupsCurrent(db1, customerId, fees, gs, InitialTx(db1), []);
    assert [] + flat == flat;
    GroupByStorePermutes(items);
    OverdrawnSameLines(db1, flat, items);
    var pg := ProcessGroups(db1, Current, customerId, fees, gs, InitialTx(db1));
    if pg.Ok? {
      CurrentWritesPermuted(db1, pg.value.inventory, flat, items);
    }
  }

  /** The writes of the corrected loop over the lines in any order. */
  lemma CurrentWritesPermuted(snap: Db, inv: map<Id, Inventory>, flat: seq<CartItem>, items: seq<CartItem>)
    requires CurrentWrites(snap, inv, flat)
    requires multiset(flat) == multiset(items)
    ensures StockAfterCorrected(snap.inventory, inv, items)
  {
    forall v | v in snap.inventory
      ensures inv[v] == snap.inventory[v].(stockQty := snap.inventory[v].stockQty - TotalQty(items, v))
    {
      TotalQtyPermutation(flat, items, v);
    }
    forall it | it in items && IsSet(it.variantId)
      ensures it.variantId.value in inv && inv[it.variantId.value].stockQty >= 0
    {
      assert it in multiset(items);
      assert it in flat;
      assert Fits(snap, flat, it);
      TotalQtyPermutation(flat, items, it.variantId.value);
    }
  }

  /** The corrected checkout of a non-empty cart fails, with 400 and no
      change, exactly when some line names a variant without inventory or
      whose loaded stock is below the total the cart orders of it; on
      success each variant is at its loaded stock minus that total. */
  lemma CorrectedCheckoutStock(db: Db, customerId: Id, fees: map<Id, Money>)
    requires |CartLines(db, customerId)| > 0
    ensures var r := CheckoutCorrected(db, customerId, fees);
      var db1 := GetActiveCart(db, customerId).db;
      var items := CartLines(db, customerId);
      && (r.result.Err? <==> Overdrawn(db1, items, items))
      && (r.result.Err? ==> r.result.error.status == 400 && r.db == db1)
      && (r.result.Ok? ==> StockAfterCorrected(db1.inventory, r.db.inventory, items))
  {
    var db1 := GetActiveCart(db, customerId).db;
    var items := CartLines(db, customerId);
    CheckoutErrShape(Current, db, customerId, fees);
    CheckoutOkShape(Current, db, customerId, fees);
    TxCurrent(db1, customerId, fees, items);
  }

  // ---------------------------------------------------------------------
  // The oversell of the handler as written

  /** The cart holds exactly two lines `x` and `y` of one variant, each
      within the loaded stock but together above it. */
  predicate DoubleLine(db: Db, customerId: Id, x: CartItem, y: CartItem) {
    && CartLines(db, customerId) == [x, y]
    && IsSet(x.variantId) && y.variantId == x.variantId
    && x.variantId.value in db.variants && x.variantId.value in db.inventory
    && x.qty <= db.inventory[x.variantId.value].stockQty
    && y.qty <= db.inventory[x.variantId.value].stockQty
    && db.inventory[x.variantId.value].stockQty < x.qty + y.qty
  }

  lemma DoubleLineLoaded(db: Db, customerId: Id, x: CartItem, y: CartItem)
    requires DoubleLine(db, customerId, x, y)
    ensures var db1 := GetActiveCart(db, customerId).db;
      db1.inventory == db.inventory && db1.variants == db.variants
    ensures forall it :: it in CartLines(db, customerId) <==> it == x || it == y
  {
  }

  /** The handler as written accepts such a cart... */
  lemma SnapshotAccepts(db: Db, customerId: Id, fees: map<Id, Money>, x: CartItem, y: CartItem)
    requires DoubleLine(db, customerId, x, y)
    ensures Checkout.Checkout(db, customerId, fees).result.Ok?
  {
    var db1 := GetActiveCart(db, customerId).db;
    DoubleLineLoaded(db, customerId, x, y);
    assert !Blocked(db1, x) && !Blocked(db1, y);
    assert forall it :: it in CartLines(db, customerId) ==> !Blocked(db1, it);
    UnblockedAccepted(db, customerId, fees);
  }

  /** A non-empty cart none of whose lines is blocked is checked out. */
  lemma UnblockedAccepted(db: Db, customerId: Id, fees: map<Id, Money>)
    requires |CartLines(db, customerId)| > 0
    requires forall it :: it in CartLines(db, customerId) ==> !Blocked(GetActiveCart(db, customerId).db, it)
    ensures Checkout.Checkout(db, customerId, fees).result.Ok?
  {
    CheckoutFailsIffBlocked(db, customerId, fees);
  }

  /** ...and leaves the variant's stock above the loaded stock minus what
      the two lines order: one decrement is lost. */
  lemma SnapshotOversells(db: Db, customerId: Id, fees: map<Id, Money>, x: CartItem, y: CartItem)
    requires DoubleLine(db, customerId, x, y)
    ensures var r := Checkout.Checkout(db, customerId, fees);
      var v := x.variantId.value;
      && r.result.Ok?
      && v in r.db.inventory
      && r.db.inventory[v].stockQty > db.inventory[v].stockQty - (x.qty + y.qty)
      && (r.db.inventory[v].stockQty == db.inventory[v].stockQty - x.qty
          || r.db.inventory[v].stockQty == db.inventory[v].stockQty - y.qty)
  {
    var v := x.variantId.value;
    var db1 := GetActiveCart(db, customerId).db;
    SnapshotAccepts(db, customerId, fees, x, y);
    DoubleLineLoaded(db, customerId, x, y);
    CheckoutInventory(db, customerId, fees);
    StockAfterPair(db1.inventory, Checkout.Checkout(db, customerId, fees).db.inventory, x, y, v);
  }

  lemma StockAfterPair(s: map<Id, Inventory>, inv: map<Id, Inventory>, x: CartItem, y: CartItem, v: Id)
    requires StockAfter(s, inv, [x, y])
    requires Refs(x, v) && Refs(y, v) && v in s
    ensures v in inv
    ensures inv[v].stockQty == s[v].stockQty - x.qty || inv[v].stockQty == s[v].stockQty - y.qty
  {
    assert x in [x, y] && Referenced([x, y], v);
  }

  /** The corrected handler refuses such a cart. */
  lemma CorrectedRefusesDoubleLine(db: Db, customerId: Id, fees: map<Id, Money>, x: CartItem, y: CartItem)
    requires DoubleLine(db, customerId, x, y)
    ensures CheckoutCorrected(db, customerId, fees).result.Err?
  {
    var items := CartLines(db, customerId);
    var db1 := GetActiveCart(db, customerId).db;
    DoubleLineLoaded(db, customerId, x, y);
    DoubleLineOverdrawn(db1, x, y);
    CorrectedCheckoutStock(db, customerId, fees);
  }

  lemma DoubleLineOverdrawn(db: Db, x: CartItem, y: CartItem)
    requires IsSet(x.variantId) && y.variantId == x.variantId && x.variantId.value in db.inventory
    requires db.inventory[x.variantId.value].stockQty < x.qty + y.qty
    ensures Overdrawn(db, [x, y], [x, y])
  {
    var v := x.variantId.value;
    assert [x, y] == [x] + [y];
    TotalQtyAppend([x], [y], v);
    TotalQtySingle(x, v);
    TotalQtySingle(y, v);
    assert !Fits(db, [x, y], x);
    assert x in [x, y];
  }

  /** A store (4) with one product (5) whose variant (7) has 5 in stock,
      and a customer (2) with no cart yet. */
  function StartDb(): Db {
    Db([User(2, "customer@example.com", [Customer])], {}, [Store(4, 1, Active)], [], [],
       map[5 := Product(4, None, "Tea", None, 100, YER, true)],
       map[7 := Variant(5, None, None, true, [])],
       map[7 := Inventory(5, 5)], [], [], [], [], 10)
  }

  /** The smallest such cart: the customer adds the variant twice with
      quantity 3. The first call creates the cart (id 10) and line 11, the
      second finds that cart and adds line 12. */
  function ExampleLine(id: Id): CartItem {
    CartItem(id, 10, 4, 5, Some(7), 3, 100, YER)
  }

  function ExampleDb(): Db {
    AddToCart(AddToCart(StartDb(), 2, 5, Some(7), 3).db, 2, 5, Some(7), 3).db
  }

  lemma ExampleAdds()
    ensures AddToCart(StartDb(), 2, 5, Some(7), 3).result == Ok(11)
    ensures AddToCart(AddToCart(StartDb(), 2, 5, Some(7), 3).db, 2, 5, Some(7), 3).result == Ok(12)
    ensures ExampleDb().inventory == StartDb().inventory
    ensures ExampleDb().cartItems == [ExampleLine(11), ExampleLine(12)]
    ensures ExampleDb().carts == [Cart(10, 2, true)]
  {
    var db0 := StartDb();
    assert StoreIsActive(db0.stores, 4) by { assert db0.stores[0] == Store(4, 1, Active); }
    assert !HasActiveCart(db0.carts, 2);
    var db1 := AddToCart(db0, 2, 5, Some(7), 3).db;
    assert db1.carts == [Cart(10, 2, true)];
    assert db1.cartItems == [ExampleLine(11)];
    assert IsActiveCartOf(db1.carts[0], 2);
    assert HasActiveCart(db1.carts, 2);
    assert StoreIsActive(db1.stores, 4) by { assert db1.stores[0] == Store(4, 1, Active); }
  }

  lemma ExampleCartLines()
    ensures CartLines(ExampleDb(), 2) == [ExampleLine(11), ExampleLine(12)]
  {
    ExampleAdds();
    var db := ExampleDb();
    assert IsActiveCartOf(db.carts[0], 2);
    assert FirstActiveCartIndex(db.carts, 2) == 0;
    assert db.cartItems[..1] == [ExampleLine(11)];
    assert ItemsOfCart(db.cartItems[..1], 10) == [ExampleLine(11)];
  }

  /** The example cart is such a cart: checkout as written accepts it and
      leaves 2 of the 5 units although 6 are ordered. */
  lemma ExampleDoubleLine()
    ensures DoubleLine(ExampleDb(), 2, ExampleLine(11), ExampleLine(12))
  {
    ExampleAdds();
    ExampleCartLines();
  }
}
