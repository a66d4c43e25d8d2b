/** The cart aggregate of the Postgres-backed server: the carts table binds an identity
    (a user id, else a session id) to a cart, and the cart_items table holds the cart's
    (product, quantity) lines. */
module Carts {
  import opened Wrappers
  import opened Seqs
  import opened Catalog

  /** A cart's id; the model numbers carts by their position in the carts table. */
  type CartId = nat

  const IdentityRequired := "Either userId or sessionId is required"
  const ProductNotFound := "Product not found"

  /** A row of the carts table: the owning user and the owning session, either of which may be NULL. */
  datatype CartRow = CartRow(userId: Option<UserId>, sessionId: Option<string>)

  /** A row of the cart_items table, without its cart id (lines are grouped by cart). */
  datatype CartLine = CartLine(productId: string, quantity: int)

  /** A cart item joined with its product, as getCart returns it. */
  datatype CartEntry = CartEntry(cartId: CartId, productId: string, quantity: int, product: Product)

  /** The result of getCart. */
  datatype CartView = CartView(items: seq<CartEntry>, total: int)

  /** A request carries an identity when it has a user id or a non-empty session id. */
  predicate HasIdentity(userId: Option<UserId>, sessionId: Option<string>)
  {
    userId.Some? || (sessionId.Some? && sessionId.value != "")
  }

  /** The cart lookup filters on user_id when a user id is given, on session_id otherwise. */
  predicate Owns(row: CartRow, userId: Option<UserId>, sessionId: Option<string>)
  {
    if userId.Some? then row.userId == userId else row.sessionId == sessionId
  }

  /** The ids of the carts the lookup selects, in ascending order. */
  function Matching(carts: seq<CartRow>, userId: Option<UserId>, sessionId: Option<string>): (r: seq<CartId>)
    ensures forall id: CartId :: id in r <==> id < |carts| && Owns(carts[id], userId, sessionId)
    ensures forall i, j :: 0 <= i < j < |r| ==> r[i] < r[j]
    ensures forall i :: 0 <= i < |r| ==> r[i] < |carts|
  {
    if carts == [] then []
    else
      var m := Matching(carts[..|carts| - 1], userId, sessionId);
      if Owns(carts[|carts| - 1], userId, sessionId) then m + [|carts| - 1] else m
  }

  /** The lookup's `.single()`: a cart id only when exactly one cart matches. */
  function FindCart(carts: seq<CartRow>, userId: Option<UserId>, sessionId: Option<string>): (r: Option<CartId>)
    ensures r.Some? ==> r.value < |carts| && Owns(carts[r.value], userId, sessionId)
    ensures r.Some? ==> forall id: CartId :: id < |carts| && Owns(carts[id], userId, sessionId) ==> id == r.value
    ensures r.None? ==>
      || (forall id: CartId :: id < |carts| ==> !Owns(carts[id], userId, sessionId))
      || (exists i: CartId, j: CartId :: i < j < |carts| && Owns(carts[i], userId, sessionId) && Owns(carts[j], userId, sessionId))
  {
    var m := Matching(carts, userId, sessionId);
    if |m| == 1 then
      assert m[0] in m;
      Some(m[0])
    else if |m| == 0 then None
    else
      assert m[0] in m && m[1] in m;
      None
  }

  /** The cart getOrCreateCart returns: the one found, else the one it appends. */
  function CartFor(carts: seq<CartRow>, userId: Option<UserId>, sessionId: Option<string>): CartId
  {
    match FindCart(carts, userId, sessionId)
    case Some(id) => id
    case None => |carts|
  }

  /** The carts table after getOrCreateCart. */
  function WithCart(carts: seq<CartRow>, userId: Option<UserId>, sessionId: Option<string>): seq<CartRow>
  {
    if FindCart(carts, userId, sessionId).Some? then carts else carts + [CartRow(userId, sessionId)]
  }

  /** The lines after getOrCreateCart: a new cart starts with none. */
  function WithLines(lines: map<CartId, seq<CartLine>>, id: CartId): map<CartId, seq<CartLine>>
  {
    if id in lines then lines else lines[id := []]
  }

  /** No two carts belong to the same user. */
  predicate UserCartsUnique(carts: seq<CartRow>)
  {
    forall i, j :: 0 <= i < j < |carts| && carts[i].userId.Some? ==> carts[i].userId != carts[j].userId
  }

  lemma UserHasAtMostOneCart(carts: seq<CartRow>, userId: Option<UserId>, sessionId: Option<string>)
    requires UserCartsUnique(carts) && userId.Some?
    ensures |Matching(carts, userId, sessionId)| <= 1
  {
    var m := Matching(carts, userId, sessionId);
    forall i | 0 <= i < |m| ensures m[i] == m[0] {
      assert m[i] in m && m[0] in m;
    }
  }

  /** Resolving the identity keeps every cart it finds or appends, and the appended cart
      belongs to the identity. */
  lemma WithCartProperties(carts: seq<CartRow>, userId: Option<UserId>, sessionId: Option<string>)
    requires UserCartsUnique(carts)
    ensures UserCartsUnique(WithCart(carts, userId, sessionId))
    ensures CartFor(carts, userId, sessionId) < |WithCart(carts, userId, sessionId)|
    ensures Owns(WithCart(carts, userId, sessionId)[CartFor(carts, userId, sessionId)], userId, sessionId)
    ensures WithCart(carts, userId, sessionId)[..|carts|] == carts
  {
    if FindCart(carts, userId, sessionId).None? && userId.Some? {
      UserHasAtMostOneCart(carts, userId, sessionId);
      assert forall i :: 0 <= i < |carts| ==> carts[i].userId != userId by {
        forall i | 0 <= i < |carts| ensures carts[i].userId != userId {
          var id: CartId := i;
          assert id !in Matching(carts, userId, sessionId);
        }
      }
    }
  }

  /** When the lookup is not ambiguous, resolving the identity a second time returns the
      same cart and creates nothing. */
  lemma ResolveStable(carts: seq<CartRow>, userId: Option<UserId>, sessionId: Option<string>)
    requires |Matching(carts, userId, sessionId)| <= 1
    ensures CartFor(WithCart(carts, userId, sessionId), userId, sessionId) == CartFor(carts, userId, sessionId)
    ensures WithCart(WithCart(carts, userId, sessionId), userId, sessionId) == WithCart(carts, userId, sessionId)
  {
    if FindCart(carts, userId, sessionId).None? {
      var next := carts + [CartRow(userId, sessionId)];
      assert WithCart(carts, userId, sessionId) == next;
      assert next[..|next| - 1] == carts;
      assert Owns(next[|next| - 1], userId, sessionId);
      assert Matching(carts, userId, sessionId) == [];
      assert Matching(next, userId, sessionId) == [|carts|];
      assert FindCart(next, userId, sessionId) == Some(|carts|);
    }
  }

  function LineProduct(l: CartLine): string { l.productId }

  /** A cart holds at most one line per product. */
  predicate DistinctProducts(ls: seq<CartLine>)
  {
    DistinctBy(ls, LineProduct)
  }

  lemma DistinctProductsTail(ls: seq<CartLine>)
    requires ls != []
    ensures DistinctProducts(ls) ==> DistinctProducts(ls[1..])
    ensures DistinctProducts(ls) ==> forall q :: CartLine(ls[0].productId, q) in ls ==> q == ls[0].quantity
  {
    assert forall i, j :: 0 <= i < j < |ls[1..]| ==> ls[1..][i] == ls[i + 1] && ls[1..][j] == ls[j + 1];
  }

  /** The quantity of the product's line, if the cart has one. */
  function QuantityOf(ls: seq<CartLine>, productId: string): (r: Option<int>)
    ensures r.Some? ==> CartLine(productId, r.value) in ls
    ensures r.None? <==> forall l :: l in ls ==> l.productId != productId
    ensures DistinctProducts(ls) ==> forall q :: CartLine(productId, q) in ls ==> r == Some(q)
  {
    if ls == [] then None
    else
      DistinctProductsTail(ls);
      if ls[0].productId == productId then Some(ls[0].quantity) else QuantityOf(ls[1..], productId)
  }

  /** Position of the product's line, or `|ls|` when there is none. */
  function IndexOfProduct(ls: seq<CartLine>, productId: string): (k: nat)
    ensures k <= |ls|
    ensures k < |ls| ==> ls[k].productId == productId
    ensures k == |ls| ==> forall l :: l in ls ==> l.productId != productId
  {
    if ls == [] then 0
    else if ls[0].productId == productId then 0
    else 1 + IndexOfProduct(ls[1..], productId)
  }

  /** Every line of `r` whose product is not `productId` is a line of `ls`, and conversely. */
  ghost predicate SameOtherLines(ls: seq<CartLine>, r: seq<CartLine>, productId: string)
  {
    forall l: CartLine :: l.productId != productId ==> (l in r <==> l in ls)
  }

  lemma SameOtherQuantities(ls: seq<CartLine>, r: seq<CartLine>, productId: string)
    requires DistinctProducts(ls) && DistinctProducts(r) && SameOtherLines(ls, r, productId)
    ensures forall p :: p != productId ==> QuantityOf(r, p) == QuantityOf(ls, p)
  {
    forall p | p != productId ensures QuantityOf(r, p) == QuantityOf(ls, p) {
      var a := QuantityOf(r, p);
      if a.Some? {
        assert CartLine(p, a.value) in ls;
      }
    }
  }

  /** addToCart's effect on the lines: an existing line grows by `quantity`, otherwise one
      line with `quantity` is appended. */
  function AddQuantity(ls: seq<CartLine>, productId: string, quantity: int): (r: seq<CartLine>)
    requires DistinctProducts(ls)
    ensures DistinctProducts(r)
    ensures QuantityOf(r, productId) == Some(QuantityOf(ls, productId).GetOr(0) + quantity)
    ensures forall p :: p != productId ==> QuantityOf(r, p) == QuantityOf(ls, p)
    ensures QuantityOf(ls, productId).None? ==> r == ls + [CartLine(productId, quantity)]
    ensures QuantityOf(ls, productId).Some? ==> |r| == |ls|
    ensures forall l :: l in r ==> l in ls || l == CartLine(productId, QuantityOf(ls, productId).GetOr(0) + quantity)
  {
    var k := IndexOfProduct(ls, productId);
    if k < |ls| then
      var r := ls[k := CartLine(productId, ls[k].quantity + quantity)];
      assert ls[k] in ls;
      assert DistinctProducts(r) by {
        forall i, j | 0 <= i < j < |r| ensures r[i].productId != r[j].productId {
          assert LineProduct(ls[i]) != LineProduct(ls[j]);
        }
      }
      assert SameOtherLines(ls, r, productId) by {
        forall l: CartLine | l.productId != productId ensures l in r <==> l in ls {
          if l in ls {
            var i :| 0 <= i < |ls| && ls[i] == l;
            assert r[i] == l;
          }
          if l in r {
            var i :| 0 <= i < |r| && r[i] == l;
            assert ls[i] == l;
          }
        }
      }
      SameOtherQuantities(ls, r, productId);
      assert r[k] in r;
      r
    else
      var r := ls + [CartLine(productId, quantity)];
      assert DistinctProducts(r) by {
        forall i, j | 0 <= i < j < |r| ensures r[i].productId != r[j].productId {
          if j == |ls| {
            assert r[i] in ls;
          } else {
            assert LineProduct(ls[i]) != LineProduct(ls[j]);
          }
        }
      }
      assert SameOtherLines(ls, r, productId);
      SameOtherQuantities(ls, r, productId);
      r
  }

  /** updateCartItem's UPDATE: the product's line takes `quantity`; nothing else changes,
      and nothing at all when the cart has no such line. */
  function SetQuantity(ls: seq<CartLine>, productId: string, quantity: int): (r: seq<CartLine>)
    requires DistinctProducts(ls)
    ensures DistinctProducts(r)
    ensures QuantityOf(r, productId) == if QuantityOf(ls, productId).Some? then Some(quantity) else None
    ensures forall p :: p != productId ==> QuantityOf(r, p) == QuantityOf(ls, p)
    ensures QuantityOf(ls, productId).None? ==> r == ls
    ensures |r| == |ls|
    ensures forall l :: l in r ==> l in ls || l == CartLine(productId, quantity)
  {
    var r := seq(|ls|, i requires 0 <= i < |ls| => if ls[i].productId == productId then CartLine(productId, quantity) else ls[i]);
    SetQuantityFacts(ls, productId, quantity, r);
    r
  }

  lemma SetQuantityFacts(ls: seq<CartLine>, productId: string, quantity: int, r: seq<CartLine>)
    requires DistinctProducts(ls)
    requires |r| == |ls|
    requires forall i :: 0 <= i < |ls| ==> r[i] == if ls[i].productId == productId then CartLine(productId, quantity) else ls[i]
    ensures DistinctProducts(r)
    ensures QuantityOf(r, productId) == if QuantityOf(ls, productId).Some? then Some(quantity) else None
    ensures forall p :: p != productId ==> QuantityOf(r, p) == QuantityOf(ls, p)
    ensures QuantityOf(ls, productId).None? ==> r == ls
    ensures forall l :: l in r ==> l in ls || l == CartLine(productId, quantity)
  {
    assert DistinctProducts(r) by {
      forall i, j | 0 <= i < j < |r| ensures r[i].productId != r[j].productId {
        assert LineProduct(ls[i]) != LineProduct(ls[j]);
      }
    }
    assert SameOtherLines(ls, r, productId) by {
      forall l: CartLine | l.productId != productId ensures l in r <==> l in ls {
        if l in ls {
          var i :| 0 <= i < |ls| && ls[i] == l;
          assert r[i] == l;
        }
        if l in r {
          var i :| 0 <= i < |r| && r[i] == l;
          assert ls[i] == l;
        }
      }
    }
    SameOtherQuantities(ls, r, productId);
    if QuantityOf(ls, productId).Some? {
      var q := QuantityOf(ls, productId).value;
      var i :| 0 <= i < |ls| && ls[i] == CartLine(productId, q);
      assert r[i] == CartLine(productId, quantity);
    } else {
      assert r == ls;
    }
  }

  /** removeFromCart's DELETE: the product's line goes, the other lines stay. */
  function RemoveProduct(ls: seq<CartLine>, productId: string): (r: seq<CartLine>)
    requires DistinctProducts(ls)
    ensures DistinctProducts(r)
    ensures QuantityOf(r, productId).None?
    ensures forall p :: p != productId ==> QuantityOf(r, p) == QuantityOf(ls, p)
    ensures forall l :: l in r ==> l in ls
  {
    var r := Filter(ls, (l: CartLine) => l.productId != productId);
    FilterDistinctBy(ls, (l: CartLine) => l.productId != productId, LineProduct);
    SameOtherQuantities(ls, r, productId);
    r
  }

  /** What the table promises about one cart's lines: one line per product, every quantity
      at least 1, every product in the catalog. */
  predicate ValidLines(ls: seq<CartLine>, products: seq<Product>)
  {
    && DistinctProducts(ls)
    && forall l :: l in ls ==> l.quantity >= 1 && HasProduct(products, l.productId)
  }

  function PriceOf(products: seq<Product>, productId: string): nat
    requires HasProduct(products, productId)
  {
    GetProductById(products, productId).value.price
  }

  /** The `product:products(*)` join of getCart. */
  function Join(cartId: CartId, ls: seq<CartLine>, products: seq<Product>): (r: seq<CartEntry>)
    requires forall l :: l in ls ==> HasProduct(products, l.productId)
    ensures |r| == |ls|
  {
    seq(|ls|, i requires 0 <= i < |ls| =>
      CartEntry(cartId, ls[i].productId, ls[i].quantity, GetProductById(products, ls[i].productId).value))
  }

  function EntryCost(e: CartEntry): int { e.product.price * e.quantity }

  /** getCart's `reduce`: the sum of price × quantity over the joined items. */
  function EntriesTotal(items: seq<CartEntry>): int
  {
    Sum(items, EntryCost)
  }

  lemma MulDistributes(a: int, b: int, c: int)
    ensures a * (b + c) == a * b + a * c
    ensures a * (b - c) == a * b - a * c
  {
  }

  /** Replacing one line replaces one joined entry. */
  lemma JoinUpdate(cartId: CartId, ls: seq<CartLine>, products: seq<Product>, k: nat, l: CartLine)
    requires k < |ls|
    requires forall x :: x in ls ==> HasProduct(products, x.productId)
    requires HasProduct(products, l.productId)
    ensures forall x :: x in ls[k := l] ==> HasProduct(products, x.productId)
    ensures Join(cartId, ls[k := l], products)
         == Join(cartId, ls, products)[k := CartEntry(cartId, l.productId, l.quantity, GetProductById(products, l.productId).value)]
  {
    assert forall x :: x in ls[k := l] ==> x in ls || x == l;
  }

  /** Appending one line appends one joined entry. */
  lemma JoinAppend(cartId: CartId, ls: seq<CartLine>, products: seq<Product>, l: CartLine)
    requires forall x :: x in ls ==> HasProduct(products, x.productId)
    requires HasProduct(products, l.productId)
    ensures forall x :: x in ls + [l] ==> HasProduct(products, x.productId)
    ensures Join(cartId, ls + [l], products)
         == Join(cartId, ls, products) + [CartEntry(cartId, l.productId, l.quantity, GetProductById(products, l.productId).value)]
  {
  }

  /** With one line per product, SetQuantity replaces exactly the product's line. */
  lemma SetQuantityAt(ls: seq<CartLine>, productId: string, quantity: int, k: nat)
    requires DistinctProducts(ls) && k < |ls| && ls[k].productId == productId
    ensures SetQuantity(ls, productId, quantity) == ls[k := CartLine(productId, quantity)]
  {
    var r := SetQuantity(ls, productId, quantity);
    forall i | 0 <= i < |ls| && i != k ensures r[i] == ls[i] {
      if i < k {
        assert LineProduct(ls[i]) != LineProduct(ls[k]);
      } else {
        assert LineProduct(ls[k]) != LineProduct(ls[i]);
      }
    }
  }

  /** Replacing a line by one for the same product removes the old line's cost and adds
      the new one's. */
  lemma UpdateLineTotal(cartId: CartId, ls: seq<CartLine>, products: seq<Product>, k: nat, l: CartLine)
    requires k < |ls| && ls[k].productId == l.productId
    requires forall x :: x in ls ==> HasProduct(products, x.productId)
    ensures forall x :: x in ls[k := l] ==> HasProduct(products, x.productId)
    ensures EntriesTotal(Join(cartId, ls[k := l], products))
         == EntriesTotal(Join(cartId, ls, products))
            + PriceOf(products, l.productId) * l.quantity - PriceOf(products, l.productId) * ls[k].quantity
  {
    assert ls[k] in ls;
    var product := GetProductById(products, l.productId).value;
    JoinUpdate(cartId, ls, products, k, l);
    var j := Join(cartId, ls, products);
    var e := CartEntry(cartId, l.productId, l.quantity, product);
    SumUpdate(j, k, e, EntryCost);
    assert j[k].product == product;
  }

  /** Appending a line raises the total by its price times its quantity. */
  lemma AppendLineTotal(cartId: CartId, ls: seq<CartLine>, products: seq<Product>, l: CartLine)
    requires HasProduct(products, l.productId)
    requires forall x :: x in ls ==> HasProduct(products, x.productId)
    ensures forall x :: x in ls + [l] ==> HasProduct(products, x.productId)
    ensures EntriesTotal(Join(cartId, ls + [l], products))
         == EntriesTotal(Join(cartId, ls, products)) + PriceOf(products, l.productId) * l.quantity
  {
    JoinAppend(cartId, ls, products, l);
    var e := CartEntry(cartId, l.productId, l.quantity, GetProductById(products, l.productId).value);
    SumAppend(Join(cartId, ls, products), [e], EntryCost);
    assert Sum([e], EntryCost) == EntryCost(e) by { assert [e][..0] == []; }
  }

  /** Adding `quantity` units of a product raises the cart total by its price times `quantity`. */
  lemma AddQuantityTotal(cartId: CartId, ls: seq<CartLine>, products: seq<Product>, productId: string, quantity: int)
    requires ValidLines(ls, products) && HasProduct(products, productId)
    ensures forall l :: l in AddQuantity(ls, productId, quantity) ==> HasProduct(products, l.productId)
    ensures EntriesTotal(Join(cartId, AddQuantity(ls, productId, quantity), products))
         == EntriesTotal(Join(cartId, ls, products)) + PriceOf(products, productId) * quantity
  {
    var k := IndexOfProduct(ls, productId);
    var r := AddQuantity(ls, productId, quantity);
    if k < |ls| {
      var l := CartLine(productId, ls[k].quantity + quantity);
      assert r == ls[k := l];
      UpdateLineTotal(cartId, ls, products, k, l);
      MulDistributes(PriceOf(products, productId), ls[k].quantity, quantity);
    } else {
      var l := CartLine(productId, quantity);
      assert r == ls + [l];
      AppendLineTotal(cartId, ls, products, l);
    }
  }

  /** Replacing a present line's quantity swaps the old quantity's cost for the new one's. */
  lemma SetQuantityTotal(cartId: CartId, ls: seq<CartLine>, products: seq<Product>, productId: string, quantity: int)
    requires ValidLines(ls, products)
    requires QuantityOf(ls, productId).Some?
    ensures HasProduct(products, productId)
    ensures forall l :: l in SetQuantity(ls, productId, quantity) ==> HasProduct(products, l.productId)
    ensures EntriesTotal(Join(cartId, SetQuantity(ls, productId, quantity), products))
         == EntriesTotal(Join(cartId, ls, products))
            + PriceOf(products, productId) * quantity - PriceOf(products, productId) * QuantityOf(ls, productId).value
  {
    var k := IndexOfProduct(ls, productId);
    assert ls[k] == CartLine(productId, QuantityOf(ls, productId).value) by {
      assert ls[k] in ls;
    }
    SetQuantityAt(ls, productId, quantity, k);
    UpdateLineTotal(cartId, ls, products, k, CartLine(productId, quantity));
  }

  /** Each line operation keeps a cart's lines valid. */
  lemma LineOperationsKeepValid(ls: seq<CartLine>, products: seq<Product>, productId: string, quantity: int)
    requires ValidLines(ls, products)
    ensures quantity >= 1 && HasProduct(products, productId) ==> ValidLines(AddQuantity(ls, productId, quantity), products)
    ensures quantity >= 1 ==> ValidLines(SetQuantity(ls, productId, quantity), products)
    ensures ValidLines(RemoveProduct(ls, productId), products)
  {
    if quantity >= 1 {
      var r := SetQuantity(ls, productId, quantity);
      forall l | l in r ensures l.quantity >= 1 && HasProduct(products, l.productId) {
        if l !in ls {
          assert l == CartLine(productId, quantity);
        }
      }
    }
  }

  /** What the two tables promise: every cart has a (possibly empty) list of lines, every
      list is valid, and no user owns two carts. */
  ghost predicate TablesValid(products: seq<Product>, carts: seq<CartRow>, lines: map<CartId, seq<CartLine>>)
  {
    && UniqueIds(products)
    && (forall id: CartId :: id in lines <==> id < |carts|)
    && (forall id :: id in lines ==> ValidLines(lines[id], products))
    && UserCartsUnique(carts)
  }

  /** Replacing one cart's lines by valid lines keeps the tables valid. */
  lemma ReplaceLinesKeepsValid(products: seq<Product>, carts: seq<CartRow>, lines: map<CartId, seq<CartLine>>,
                               id: CartId, ls: seq<CartLine>)
    requires TablesValid(products, carts, lines) && id in lines && ValidLines(ls, products)
    ensures TablesValid(products, carts, lines[id := ls])
  {
  }

  /** The carts and cart_items tables, with the catalog the cart operations check against. */
  class CartService {
    const products: seq<Product>
    /** The carts table; a cart's id is its position. */
    var carts: seq<CartRow>
    /** The cart_items table, grouped by cart id. */
    var lines: map<CartId, seq<CartLine>>

    ghost predicate Valid()
      reads this
    {
      TablesValid(products, carts, lines)
    }

    constructor(products: seq<Product>)
      requires UniqueIds(products)
      ensures Valid()
      ensures this.products == products && carts == [] && lines == map[]
    {
      this.products := products;
      carts := [];
      lines := map[];
    }

    /** getOrCreateCart: rejects a request without identity; otherwise returns the cart the
        lookup finds, or appends an empty cart for the identity. */
    method GetOrCreateCart(userId: Option<UserId>, sessionId: Option<string>) returns (r: Result<CartId>)
      requires Valid()
      modifies this
      ensures Valid()
      ensures !HasIdentity(userId, sessionId) ==>
        r == Err(IdentityRequired) && carts == old(carts) && lines == old(lines)
      ensures HasIdentity(userId, sessionId) ==>
        && r == Ok(CartFor(old(carts), userId, sessionId))
        && carts == WithCart(old(carts), userId, sessionId)
        && lines == WithLines(old(lines), r.value)
      ensures r.Ok? ==> r.value in lines && Owns(carts[r.value], userId, sessionId)
      ensures FindCart(old(carts), userId, sessionId).Some? ==> carts == old(carts) && lines == old(lines)
    {
      if !HasIdentity(userId, sessionId) {
        return Err(IdentityRequired);
      }
      WithCartProperties(carts, userId, sessionId);
      var found := FindCart(carts, userId, sessionId);
      if found.Some? {
        return Ok(found.value);
      }
      r := Ok(|carts|);
      lines := lines[|carts| := []];
      carts := carts + [CartRow(userId, sessionId)];
    }

    /** getCart: the identity's cart lines joined with their products, and the total of
        price × quantity over them. */
    method GetCart(userId: Option<UserId>, sessionId: Option<string>) returns (r: Result<CartView>)
      requires Valid()
      modifies this
      ensures Valid()
      ensures !HasIdentity(userId, sessionId) ==>
        r == Err(IdentityRequired) && carts == old(carts) && lines == old(lines)
      ensures HasIdentity(userId, sessionId) ==>
        var c := CartFor(old(carts), userId, sessionId);
        && carts == WithCart(old(carts), userId, sessionId)
        && lines == WithLines(old(lines), c)
        && r.Ok?
        && r.value.items == Join(c, lines[c], products)
        && r.value.total == EntriesTotal(r.value.items)
        && (lines[c] == [] ==> r.value.items == [] && r.value.total == 0)
    {
      var id := GetOrCreateCart(userId, sessionId);
      if id.Err? {
        return Err(id.message);
      }
      var items := Join(id.value, lines[id.value], products);
      r := Ok(CartView(items, EntriesTotal(items)));
    }

    /** addToCart: an unknown product fails with "Product not found"; a product already in
        the cart has its quantity increased, any other gets a new line. */
    method AddToCart(productId: string, quantity: int, userId: Option<UserId>, sessionId: Option<string>) returns (r: Outcome)
      requires Valid()
      requires quantity >= 1
      modifies this
      ensures Valid()
      ensures !HasIdentity(userId, sessionId) ==>
        r == Fail(IdentityRequired) && carts == old(carts) && lines == old(lines)
      ensures HasIdentity(userId, sessionId) ==>
        var c := CartFor(old(carts), userId, sessionId);
        var before := WithLines(old(lines), c);
        && carts == WithCart(old(carts), userId, sessionId)
        && c in before
        && (!HasProduct(products, productId) ==> r == Fail(ProductNotFound) && lines == before)
        && (HasProduct(products, productId) ==>
              r == Pass && lines == before[c := AddQuantity(before[c], productId, quantity)])
    {
      var id := GetOrCreateCart(userId, sessionId);
      if id.Err? {
        return Fail(id.message);
      }
      var product := GetProductById(products, productId);
      if product.None? {
        return Fail(ProductNotFound);
      }
      var c := id.value;
      LineOperationsKeepValid(lines[c], products, productId, quantity);
      ReplaceLinesKeepsValid(products, carts, lines, c, AddQuantity(lines[c], productId, quantity));
      lines := lines[c := AddQuantity(lines[c], productId, quantity)];
      r := Pass;
    }

    /** removeFromCart: deletes the product's line from the identity's cart, if it has one. */
    method RemoveFromCart(productId: string, userId: Option<UserId>, sessionId: Option<string>) returns (r: Outcome)
      requires Valid()
      modifies this
      ensures Valid()
      ensures !HasIdentity(userId, sessionId) ==>
        r == Fail(IdentityRequired) && carts == old(carts) && lines == old(lines)
      ensures HasIdentity(userId, sessionId) ==>
        var c := CartFor(old(carts), userId, sessionId);
        var before := WithLines(old(lines), c);
        && carts == WithCart(old(carts), userId, sessionId)
        && c in before
        && r == Pass
        && lines == before[c := RemoveProduct(before[c], productId)]
    {
      var id := GetOrCreateCart(userId, sessionId);
      if id.Err? {
        return Fail(id.message);
      }
      var c := id.value;
      LineOperationsKeepValid(lines[c], products, productId, 1);
      ReplaceLinesKeepsValid(products, carts, lines, c, RemoveProduct(lines[c], productId));
      lines := lines[c := RemoveProduct(lines[c], productId)];
      r := Pass;
    }

    /** updateCartItem: a quantity of zero or less removes the line (through removeFromCart,
        which resolves the cart again); a positive quantity replaces the line's quantity, and
        an absent line stays absent. */
    method UpdateCartItem(productId: string, quantity: int, userId: Option<UserId>, sessionId: Option<string>) returns (r: Outcome)
      requires Valid()
      requires quantity >= 0
      modifies this
      ensures Valid()
      ensures !HasIdentity(userId, sessionId) ==>
        r == Fail(IdentityRequired) && carts == old(carts) && lines == old(lines)
      ensures HasIdentity(userId, sessionId) && quantity > 0 ==>
        var c := CartFor(old(carts), userId, sessionId);
        var before := WithLines(old(lines), c);
        && carts == WithCart(old(carts), userId, sessionId)
        && c in before
        && r == Pass
        && lines == before[c := SetQuantity(before[c], productId, quantity)]
      ensures HasIdentity(userId, sessionId) && quantity <= 0 ==>
        var carts1 := WithCart(old(carts), userId, sessionId);
        var lines1 := WithLines(old(lines), CartFor(old(carts), userId, sessionId));
        var c := CartFor(carts1, userId, sessionId);
        var before := WithLines(lines1, c);
        && carts == WithCart(carts1, userId, sessionId)
        && c in before
        && r == Pass
        && lines == before[c := RemoveProduct(before[c], productId)]
    {
      var id := GetOrCreateCart(userId, sessionId);
      if id.Err? {
        return Fail(id.message);
      }
      if quantity <= 0 {
        r := RemoveFromCart(productId, userId, sessionId);
        return;
      }
      var c := id.value;
      LineOperationsKeepValid(lines[c], products, productId, quantity);
      ReplaceLinesKeepsValid(products, carts, lines, c, SetQuantity(lines[c], productId, quantity));
      lines := lines[c := SetQuantity(lines[c], productId, quantity)];
      r := Pass;
    }

    /** clearCart: deletes every line of the identity's cart and nothing else. */
    method ClearCart(userId: Option<UserId>, sessionId: Option<string>) returns (r: Outcome)
      requires Valid()
      modifies this
      ensures Valid()
      ensures !HasIdentity(userId, sessionId) ==>
        r == Fail(IdentityRequired) && carts == old(carts) && lines == old(lines)
      ensures HasIdentity(userId, sessionId) ==>
        var c := CartFor(old(carts), userId, sessionId);
        && carts == WithCart(old(carts), userId, sessionId)
        && r == Pass
        && lines == WithLines(old(lines), c)[c := []]
    {
      var id := GetOrCreateCart(userId, sessionId);
      if id.Err? {
        return Fail(id.message);
      }
      ReplaceLinesKeepsValid(products, carts, lines, id.value, []);
      lines := lines[id.value := []];
      r := Pass;
    }
  }
}
