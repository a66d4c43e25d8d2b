/** Checkout and the orders / order_items tables of the Postgres-backed server: an order is
    created from the identity's stored cart, its lines are frozen into order items, and the
    cart is cleared. */
module Orders {
  import opened Wrappers
  import opened Seqs
  import opened Text
  import opened Catalog
  import opened Carts

  /** An order's id; the model numbers orders by their position in the orders table. */
  type OrderId = nat

  const CartEmpty := "Cart is empty"
  const Pending := "pending"

  function ProductMissing(productId: string): string
  {
    "Product " + productId + " not found"
  }

  /** The shipping block of a checkout request. */
  datatype Shipping = Shipping(
    firstName: string,
    lastName: string,
    email: string,
    address: string,
    city: string,
    state: Option<string>,
    postalCode: string,
    country: string,
    phone: Option<string>)

  /** One entry of the request's `items` list. */
  datatype RequestedItem = RequestedItem(productId: string, quantity: int)

  /** The body of a checkout request. */
  datatype CreateOrderInput = CreateOrderInput(items: seq<RequestedItem>, shipping: Shipping, paymentMethod: Option<string>)

  /** A row of the orders table. */
  datatype Order = Order(
    userId: Option<UserId>,
    orderNumber: string,
    totalAmount: int,
    shipping: Shipping,
    paymentMethod: Option<string>,
    status: string,
    paymentStatus: string,
    createdAt: int)

  /** A row of the order_items table: a cart line frozen at checkout. */
  datatype OrderItem = OrderItem(
    orderId: OrderId,
    productId: string,
    productName: string,
    productImage: string,
    price: nat,
    quantity: int,
    subtotal: int)

  /** An order with its `items:order_items(*)` embedding. */
  datatype OrderWithItems = OrderWithItems(id: OrderId, order: Order, items: seq<OrderItem>)

  /** The order number: "ORD-", the clock reading in base 36, "-", five characters of the
      random draw's base-36 text (after its "0."), all upper-cased. */
  function GenerateOrderNumber(clock: nat, random36: string): (r: string)
    ensures |r| >= 6 && r[..4] == "ORD-"
    ensures forall i :: 0 <= i < |r| ==> !IsLowerLetter(r[i])
  {
    Upper("ORD-" + ToRadix(clock, 36) + "-" + JsSubstring(random36, 2, 7))
  }

  /** Upper-casing "ORD-" + t + "-" + x upper-cases the two parts and keeps the rest. */
  lemma UpperOrderNumber(t: string, x: string)
    ensures Upper("ORD-" + t + "-" + x) == "ORD-" + Upper(t) + ['-'] + Upper(x)
  {
    var s := "ORD-" + t + "-" + x;
    var u := "ORD-" + Upper(t) + ['-'] + Upper(x);
    assert |Upper(s)| == |u|;
    forall i | 0 <= i < |s| ensures Upper(s)[i] == u[i] {
      if i < 4 {
      } else if i < 4 + |t| {
        assert s[i] == t[i - 4];
      } else if i == 4 + |t| {
      } else {
        assert s[i] == x[i - 5 - |t|];
      }
    }
  }

  /** Two order numbers generated from different clock readings differ, whatever the random
      draws: the clock part is read back between "ORD-" and the next "-". */
  lemma OrderNumberDeterminesClock(clock1: nat, random1: string, clock2: nat, random2: string)
    requires GenerateOrderNumber(clock1, random1) == GenerateOrderNumber(clock2, random2)
    ensures clock1 == clock2
  {
    var t1, t2 := ToRadix(clock1, 36), ToRadix(clock2, 36);
    var x1, x2 := JsSubstring(random1, 2, 7), JsSubstring(random2, 2, 7);
    UpperOrderNumber(t1, x1);
    UpperOrderNumber(t2, x2);
    assert '-' !in Upper(t1) by {
      forall i | 0 <= i < |Upper(t1)| ensures Upper(t1)[i] != '-' {
        assert IsAlnum(t1[i]);
      }
    }
    assert '-' !in Upper(t2) by {
      forall i | 0 <= i < |Upper(t2)| ensures Upper(t2)[i] != '-' {
        assert IsAlnum(t2[i]);
      }
    }
    SeparatedPartsEqual("ORD-", Upper(t1), Upper(x1), Upper(t2), Upper(x2), '-');
    FromRadixUpper(t1, 36);
    FromRadixUpper(t2, 36);
    RadixRoundTrip(clock1, 36);
    RadixRoundTrip(clock2, 36);
  }

  /** The first requested product the catalog does not hold, scanning the request in order. */
  function FirstMissing(products: seq<Product>, items: seq<RequestedItem>): (r: Option<string>)
    ensures r.None? <==> forall i :: 0 <= i < |items| ==> HasProduct(products, items[i].productId)
    ensures r.Some? ==>
      exists i :: 0 <= i < |items| && items[i].productId == r.value && !HasProduct(products, r.value)
        && forall j :: 0 <= j < i ==> HasProduct(products, items[j].productId)
  {
    if items == [] then None
    else if !HasProduct(products, items[0].productId) then Some(items[0].productId)
    else
      var r := FirstMissing(products, items[1..]);
      assert r.Some? ==>
        exists i :: 1 <= i < |items| && items[i].productId == r.value && !HasProduct(products, r.value)
          && forall j :: 0 <= j < i ==> HasProduct(products, items[j].productId) by {
        if r.Some? {
          var i :| 0 <= i < |items[1..]| && items[1..][i].productId == r.value && !HasProduct(products, r.value)
            && forall j :: 0 <= j < i ==> HasProduct(products, items[1..][j].productId);
          assert forall j :: 0 <= j < i + 1 ==> HasProduct(products, items[j].productId) by {
            forall j | 0 <= j < i + 1 ensures HasProduct(products, items[j].productId) {
              if j > 0 {
                assert items[j] == items[1..][j - 1];
              }
            }
          }
        }
      }
      assert r.None? ==> forall i :: 0 <= i < |items| ==> HasProduct(products, items[i].productId) by {
        if r.None? {
          forall i | 0 <= i < |items| ensures HasProduct(products, items[i].productId) {
            if i > 0 {
              assert items[i] == items[1..][i - 1];
            }
          }
        }
      }
      r
  }

  /** The validation loop of createOrder: looks every requested product up, in order, and
      reports the first one that is missing. */
  method CheckProducts(products: seq<Product>, items: seq<RequestedItem>) returns (missing: Option<string>)
    ensures missing == FirstMissing(products, items)
  {
    var i := 0;
    while i < |items|
      invariant 0 <= i <= |items|
      invariant FirstMissing(products, items) == FirstMissing(products, items[i..])
    {
      assert items[i..][1..] == items[i + 1..];
      var product := GetProductById(products, items[i].productId);
      if product.None? {
        return Some(items[i].productId);
      }
      i := i + 1;
    }
    return None;
  }

  function Subtotal(item: OrderItem): int { item.subtotal }

  /** The `cart.items.map(...)` of createOrder: one order item per cart entry, copying the
      product's id, name, image and price, with subtotal price × quantity. */
  function FreezeItems(orderId: OrderId, entries: seq<CartEntry>): (r: seq<OrderItem>)
    ensures |r| == |entries|
    ensures forall i :: 0 <= i < |r| ==>
      && r[i].orderId == orderId
      && r[i].productId == entries[i].productId
      && r[i].productName == entries[i].product.name
      && r[i].productImage == entries[i].product.image
      && r[i].quantity == entries[i].quantity
      && r[i].price == entries[i].product.price
      && r[i].subtotal == r[i].price * r[i].quantity
  {
    seq(|entries|, i requires 0 <= i < |entries| =>
      var e := entries[i];
      OrderItem(orderId, e.productId, e.product.name, e.product.image, e.product.price, e.quantity, e.product.price * e.quantity))
  }

  /** The frozen subtotals add up to the cart total the order records. */
  lemma {:induction false} FrozenTotal(orderId: OrderId, entries: seq<CartEntry>)
    ensures Sum(FreezeItems(orderId, entries), Subtotal) == EntriesTotal(entries)
  {
    if entries != [] {
      var n := |entries| - 1;
      assert FreezeItems(orderId, entries)[..n] == FreezeItems(orderId, entries[..n]);
      FrozenTotal(orderId, entries[..n]);
    }
  }

  /** The `items:order_items(*)` embedding: the order's item rows, each as often as it is stored. */
  function ItemsOf(orderItems: seq<OrderItem>, orderId: OrderId): (r: seq<OrderItem>)
    ensures forall it :: it in r <==> it in orderItems && it.orderId == orderId
    ensures forall it :: multiset(r)[it] == if it.orderId == orderId then multiset(orderItems)[it] else 0
  {
    Filter(orderItems, (it: OrderItem) => it.orderId == orderId)
  }

  /** The row with id `orderId` and its embedded items. */
  function Record(orders: seq<Order>, orderItems: seq<OrderItem>, orderId: OrderId): OrderWithItems
    requires orderId < |orders|
  {
    OrderWithItems(orderId, orders[orderId], ItemsOf(orderItems, orderId))
  }

  /** getOrderById: the order by id alone, or, when a user id is given, only if it belongs to
      that user; None when the filtered lookup finds no row. */
  function GetOrderById(orders: seq<Order>, orderItems: seq<OrderItem>, orderId: OrderId, userId: Option<UserId>): (r: Option<OrderWithItems>)
    ensures r.Some? <==> orderId < |orders| && (userId.Some? ==> orders[orderId].userId == userId)
    ensures r.Some? ==>
      && r.value.id == orderId
      && r.value.order == orders[orderId]
      && (forall it :: it in r.value.items <==> it in orderItems && it.orderId == orderId)
      && (forall it :: multiset(r.value.items)[it] == if it.orderId == orderId then multiset(orderItems)[it] else 0)
  {
    if orderId < |orders| && (userId.None? || orders[orderId].userId == userId) then
      Some(Record(orders, orderItems, orderId))
    else
      None
  }

  /** A user only ever sees their own orders through getOrderById. */
  lemma GetOrderByIdOwnerOnly(orders: seq<Order>, orderItems: seq<OrderItem>, orderId: OrderId, userId: UserId)
    requires GetOrderById(orders, orderItems, orderId, Some(userId)).Some?
    ensures GetOrderById(orders, orderItems, orderId, Some(userId)).value.order.userId == Some(userId)
    ensures GetOrderById(orders, orderItems, orderId, Some(userId)) == GetOrderById(orders, orderItems, orderId, None)
  {
  }

  predicate NewestOrderFirst(a: OrderWithItems, b: OrderWithItems)
  {
    a.order.createdAt >= b.order.createdAt
  }

  lemma NewestOrderFirstIsTotalPreorder()
    ensures TotalPreorder(NewestOrderFirst)
  {
  }

  /** Every order with its items, in table order. */
  function AllRecords(orders: seq<Order>, orderItems: seq<OrderItem>): (r: seq<OrderWithItems>)
    ensures forall rec :: rec in r <==> rec.id < |orders| && rec == Record(orders, orderItems, rec.id)
    ensures |r| == |orders| && forall i :: 0 <= i < |r| ==> r[i].id == i
    ensures forall i, j :: 0 <= i < j < |r| ==> r[i] != r[j]
  {
    var r := seq(|orders|, i requires 0 <= i < |orders| => Record(orders, orderItems, i));
    assert forall rec :: rec in r ==> rec.id < |orders| && rec == Record(orders, orderItems, rec.id) by {
      forall rec | rec in r ensures rec.id < |orders| && rec == Record(orders, orderItems, rec.id) {
        var i :| 0 <= i < |r| && r[i] == rec;
      }
    }
    assert forall rec: OrderWithItems :: rec.id < |orders| && rec == Record(orders, orderItems, rec.id) ==> rec in r by {
      forall rec: OrderWithItems | rec.id < |orders| && rec == Record(orders, orderItems, rec.id) ensures rec in r {
        assert r[rec.id] == rec;
      }
    }
    r
  }

  /** Whether an order was placed by the user. */
  function PlacedBy(userId: UserId): OrderWithItems -> bool
  {
    (rec: OrderWithItems) => rec.order.userId == Some(userId)
  }

  /** The `eq('user_id', userId)` filter: every order of the user once, with its items. */
  function UserRecords(orders: seq<Order>, orderItems: seq<OrderItem>, userId: UserId): (r: seq<OrderWithItems>)
    ensures forall rec :: rec in r <==>
      rec.id < |orders| && orders[rec.id].userId == Some(userId) && rec == Record(orders, orderItems, rec.id)
    ensures forall i, j :: 0 <= i < j < |r| ==> r[i] != r[j]
  {
    var all := AllRecords(orders, orderItems);
    var r := Filter(all, PlacedBy(userId));
    FilterNoRepeats(all, PlacedBy(userId), r);
    r
  }

  /** getUserOrders: exactly the user's orders, each once and with its items, newest first. */
  function GetUserOrders(orders: seq<Order>, orderItems: seq<OrderItem>, userId: UserId): (r: seq<OrderWithItems>)
    ensures forall rec :: rec in r <==>
      rec.id < |orders| && orders[rec.id].userId == Some(userId) && rec == Record(orders, orderItems, rec.id)
    ensures forall i, j :: 0 <= i < j < |r| ==> r[i].id != r[j].id
    ensures SortedBy(r, NewestOrderFirst)
  {
    NewestOrderFirstIsTotalPreorder();
    var r := SortBy(UserRecords(orders, orderItems, userId), NewestOrderFirst);
    ReorderedUserRecords(orders, orderItems, userId, r);
    r
  }

  /** Any reordering of the user's records still lists each of the user's orders exactly once. */
  lemma ReorderedUserRecords(orders: seq<Order>, orderItems: seq<OrderItem>, userId: UserId, r: seq<OrderWithItems>)
    requires multiset(r) == multiset(UserRecords(orders, orderItems, userId))
    ensures forall rec :: rec in r <==>
      rec.id < |orders| && orders[rec.id].userId == Some(userId) && rec == Record(orders, orderItems, rec.id)
    ensures forall i, j :: 0 <= i < j < |r| ==> r[i].id != r[j].id
  {
    var mine := UserRecords(orders, orderItems, userId);
    assert forall rec :: rec in r <==> rec in mine by {
      forall rec ensures rec in r <==> rec in mine {
        assert rec in r <==> multiset(r)[rec] > 0;
        assert rec in mine <==> multiset(mine)[rec] > 0;
      }
    }
    PermutationNoRepeats(mine, r);
    RecordsOnceById(orders, orderItems, r);
  }

  /** Records that are all read from the tables and never repeated have distinct ids. */
  lemma RecordsOnceById(orders: seq<Order>, orderItems: seq<OrderItem>, r: seq<OrderWithItems>)
    requires forall rec :: rec in r ==> rec.id < |orders| && rec == Record(orders, orderItems, rec.id)
    requires forall i, j :: 0 <= i < j < |r| ==> r[i] != r[j]
    ensures forall i, j :: 0 <= i < j < |r| ==> r[i].id != r[j].id
  {
    forall i, j | 0 <= i < j < |r| ensures r[i].id != r[j].id {
      assert r[i] in r && r[j] in r;
    }
  }

  /** The orders and order_items tables, next to the cart store checkout reads and clears. */
  class OrderService {
    const cartService: CartService
    /** The orders table; an order's id is its position. */
    var orders: seq<Order>
    /** The order_items table. */
    var orderItems: seq<OrderItem>

    ghost predicate Valid()
      reads this, cartService
    {
      && cartService.Valid()
      && forall it :: it in orderItems ==> it.orderId < |orders| && it.subtotal == it.price * it.quantity
    }

    constructor(cartService: CartService)
      requires cartService.Valid()
      ensures Valid()
      ensures this.cartService == cartService && orders == [] && orderItems == []
    {
      this.cartService := cartService;
      orders := [];
      orderItems := [];
    }

    /** createOrder: reads the identity's cart (creating it if need be), fails on an empty cart,
        then on the first requested product the catalog lacks; otherwise records a pending
        order whose total is the stored cart's total, freezes the cart's lines into order
        items, and clears the cart. */
    method CreateOrder(input: CreateOrderInput, userId: Option<UserId>, sessionId: Option<string>,
                       clock: nat, random36: string, now: int) returns (r: Result<OrderWithItems>)
      requires Valid()
      modifies this, cartService
      ensures Valid()
      ensures !HasIdentity(userId, sessionId) ==>
        && r == Err(IdentityRequired)
        && orders == old(orders) && orderItems == old(orderItems)
        && cartService.carts == old(cartService.carts) && cartService.lines == old(cartService.lines)
      ensures HasIdentity(userId, sessionId) ==>
        var c := CartFor(old(cartService.carts), userId, sessionId);
        var before := WithLines(old(cartService.lines), c);
        && c in before
        && cartService.carts == WithCart(old(cartService.carts), userId, sessionId)
        && (before[c] == [] ==>
              && r == Err(CartEmpty)
              && orders == old(orders) && orderItems == old(orderItems) && cartService.lines == before)
        && (before[c] != [] && FirstMissing(cartService.products, input.items).Some? ==>
              && r == Err(ProductMissing(FirstMissing(cartService.products, input.items).value))
              && orders == old(orders) && orderItems == old(orderItems) && cartService.lines == before)
        && (before[c] != [] && FirstMissing(cartService.products, input.items).None? ==>
              var entries := Join(c, before[c], cartService.products);
              var id := |old(orders)|;
              var order := Order(userId, GenerateOrderNumber(clock, random36), EntriesTotal(entries),
                                 input.shipping, input.paymentMethod, Pending, Pending, now);
              && r == Ok(OrderWithItems(id, order, FreezeItems(id, entries)))
              && orders == old(orders) + [order]
              && orderItems == old(orderItems) + FreezeItems(id, entries)
              && cartService.lines == before[c := []])
      ensures r.Ok? ==>
        && r.value.order.status == Pending && r.value.order.paymentStatus == Pending
        && Sum(r.value.items, Subtotal) == r.value.order.totalAmount
        && cartService.lines[CartFor(cartService.carts, userId, sessionId)] == []
    {
      var cart := cartService.GetCart(userId, sessionId);
      if cart.Err? {
        return Err(cart.message);
      }
      if |cart.value.items| == 0 {
        return Err(CartEmpty);
      }
      var missing := CheckProducts(cartService.products, input.items);
      if missing.Some? {
        return Err(ProductMissing(missing.value));
      }
      var total := cart.value.total;
      var id := |orders|;
      var order := Order(userId, GenerateOrderNumber(clock, random36), total,
                         input.shipping, input.paymentMethod, Pending, Pending, now);
      orders := orders + [order];
      var items := FreezeItems(id, cart.value.items);
      FrozenTotal(id, cart.value.items);
      orderItems := orderItems + items;
      var _ := cartService.ClearCart(userId, sessionId);
      r := Ok(OrderWithItems(id, order, items));
    }

    /** updateOrderStatus: sets the order's status to any string; an unknown id updates no row. */
    method UpdateOrderStatus(orderId: OrderId, status: string)
      requires Valid()
      modifies this
      ensures Valid()
      ensures orderItems == old(orderItems)
      ensures orderId < |old(orders)| ==> orders == old(orders)[orderId := old(orders)[orderId].(status := status)]
      ensures orderId >= |old(orders)| ==> orders == old(orders)
    {
      if orderId < |orders| {
        orders := orders[orderId := orders[orderId].(status := status)];
      }
    }
  }
}
