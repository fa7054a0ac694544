/** The persistent state the route handlers read and write, one table per
    entity. Tables that are looked up by more than their primary key are
    sequences in creation (id) order; tables only ever read by primary key
    are maps. Money is an integer amount of minor units (cents). */
module Model {
  import opened Basics

  type Id = nat
  type Money = int

  datatype Role = Admin | Tenant | Customer | Staff
  datatype StaffRole = Manager | Sales | Products
  datatype Currency = YER | SAR | USD
  datatype StoreStatus = Active | Inactive

  datatype User = User(id: Id, email: string, roles: seq<Role>)
  datatype Store = Store(id: Id, ownerUserId: Id, status: StoreStatus)
  datatype StaffLink = StaffLink(id: Id, storeId: Id, userId: Id, role: StaffRole, enabled: bool)
  datatype Section = Section(id: Id, storeId: Id, name: string, sortOrder: nat, enabled: bool)

  datatype Product = Product(
    storeId: Id, sectionId: Option<Id>, name: string, description: Option<string>,
    basePrice: Money, currency: Currency, enabled: bool)

  datatype Attribute = Attribute(name: string, value: string)
  datatype Variant = Variant(
    productId: Id, sku: Option<string>, priceOverride: Option<Money>,
    enabled: bool, attributes: seq<Attribute>)

  /** The single inventory record of a variant (the table is keyed by variant id). */
  datatype Inventory = Inventory(stockQty: int, lowStockThreshold: int)

  datatype Cart = Cart(id: Id, customerId: Id, active: bool)

  /** A cart line: a frozen snapshot of price and currency taken when it was added. */
  datatype CartItem = CartItem(
    id: Id, cartId: Id, storeId: Id, productId: Id, variantId: Option<Id>,
    qty: nat, unitPrice: Money, currency: Currency)

  datatype OrderStatus = OrderPending
  datatype PaymentStatus = Unpaid
  datatype OrderItem = OrderItem(productId: Id, variantId: Option<Id>, qty: nat, unitPrice: Money)
  datatype Order = Order(
    id: Id, storeId: Id, customerId: Id, currency: Currency,
    subtotal: Money, shippingFee: Money, total: Money,
    status: OrderStatus, paymentStatus: PaymentStatus, items: seq<OrderItem>)

  datatype PromoType = Percent | Amount | FreeShip | Coupon
  /** Declared in this order; the admin listing sorts by it. */
  datatype PromoStatus = Pending | PromoActive | Rejected | Stopped
  datatype Promotion = Promotion(
    id: Id, storeId: Id, title: string, promoType: PromoType, value: string,
    couponCode: Option<string>, status: PromoStatus, createdById: Id,
    approvedById: Option<Id>, rejectReason: Option<string>, priority: nat)

  datatype Db = Db(
    users: seq<User>,
    roleCodes: set<Role>,                // rows of the role table (seeded)
    stores: seq<Store>,
    staff: seq<StaffLink>,
    sections: seq<Section>,
    products: map<Id, Product>,
    variants: map<Id, Variant>,
    inventory: map<Id, Inventory>,       // keyed by variant id
    carts: seq<Cart>,
    cartItems: seq<CartItem>,
    orders: seq<Order>,
    promotions: seq<Promotion>,
    nextId: Id)                          // the next auto-increment id

  /** A handler's effect: the state after the request and what it answered. */
  datatype Outcome<T> = Outcome(db: Db, result: Result<T>)

  /** JavaScript truthiness of an optional BigInt id: null and 0n are falsy. */
  predicate IsSet(id: Option<Id>) {
    id.Some? && id.value != 0
  }

  /** Looks a store up by id (`findUnique`). */
  function FindStore(stores: seq<Store>, id: Id): (r: Option<Store>)
    ensures r.Some? ==> r.value in stores && r.value.id == id
    ensures r.None? ==> forall s :: s in stores ==> s.id != id
  {
    if |stores| == 0 then None
    else if stores[0].id == id then Some(stores[0])
    else FindStore(stores[1..], id)
  }

  /** The `n` newest entries of a table kept in creation order, newest first
      (`orderBy: { createdAt: "desc" }, take: n`). */
  function Newest<T>(s: seq<T>, n: nat): (r: seq<T>)
    ensures |r| == Min(n, |s|)
    ensures forall i :: 0 <= i < |r| ==> r[i] == s[|s| - 1 - i]
    ensures forall x :: x in r ==> x in s
    ensures |s| <= n ==> forall x :: x in s ==> x in r
  {
    if n == 0 || |s| == 0 then []
    else
      var pre := s[..|s| - 1];
      assert s == pre + [s[|s| - 1]];
      [s[|s| - 1]] + Newest(pre, n - 1)
  }
}
