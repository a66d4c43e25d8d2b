/** The Mongo cart document of the Express backend: its schema constraints, the save hook
    that recomputes the two totals from the lines, and the collection's unique session index. */
module MongoCart {
  import opened Seqs

  /** A line of the cart document, with the price snapshotted when it was added. */
  datatype CartItem = CartItem(productId: string, name: string, price: int, image: string, quantity: int)

  function Quantity(item: CartItem): int { item.quantity }

  function LinePrice(item: CartItem): int { item.price * item.quantity }

  /** The hook's first `reduce`: the number of units in the cart. */
  function TotalItems(items: seq<CartItem>): int
  {
    Sum(items, Quantity)
  }

  /** The hook's second `reduce`: the cart's value at the snapshotted prices. */
  function TotalPrice(items: seq<CartItem>): int
  {
    Sum(items, LinePrice)
  }

  /** The line schema: every string field is required (so non-empty) and the quantity is at least 1. */
  predicate ItemValid(item: CartItem)
  {
    item.productId != "" && item.name != "" && item.image != "" && item.quantity >= 1
  }

  /** The cart schema: a required session id and valid lines. */
  predicate SchemaValid(sessionId: string, items: seq<CartItem>)
  {
    sessionId != "" && forall item :: item in items ==> ItemValid(item)
  }

  /** With every quantity at least 1, the unit count is at least the number of lines, so it is
      0 exactly when the cart has no lines. */
  lemma {:induction false} TotalItemsCountsLines(items: seq<CartItem>)
    requires forall item :: item in items ==> item.quantity >= 1
    ensures TotalItems(items) >= |items|
    ensures TotalItems(items) == 0 <==> items == []
  {
    if items != [] {
      var n := |items| - 1;
      assert forall item :: item in items[..n] ==> item in items;
      assert items[n] in items;
      TotalItemsCountsLines(items[..n]);
    }
  }

  /** Adding a line adds its units and its price × quantity to the two totals. */
  lemma TotalsAppend(items: seq<CartItem>, item: CartItem)
    ensures TotalItems(items + [item]) == TotalItems(items) + item.quantity
    ensures TotalPrice(items + [item]) == TotalPrice(items) + item.price * item.quantity
  {
    assert (items + [item])[..|items|] == items;
  }

  /** A cart document in memory, before or after it is saved. */
  class CartDocument {
    /** The document's `_id`. */
    const id: nat
    var sessionId: string
    var items: seq<CartItem>
    var totalItems: int
    var totalPrice: int
    /** Whether the document has not been stored yet. */
    var isNew: bool

    /** A new document; both totals take their schema default 0. */
    constructor(id: nat, sessionId: string, items: seq<CartItem>)
      ensures this.id == id && this.sessionId == sessionId && this.items == items
      ensures totalItems == 0 && totalPrice == 0 && isNew
    {
      this.id := id;
      this.sessionId := sessionId;
      this.items := items;
      totalItems := 0;
      totalPrice := 0;
      isNew := true;
    }

    /** The pre-save hook: recomputes both totals from the lines and changes nothing else. */
    method PreSave()
      modifies this
      ensures totalItems == TotalItems(items) && totalPrice == TotalPrice(items)
      ensures sessionId == old(sessionId) && items == old(items) && isNew == old(isNew)
    {
      var units, value := 0, 0;
      var i := 0;
      while i < |items|
        invariant 0 <= i <= |items|
        invariant units == TotalItems(items[..i]) && value == TotalPrice(items[..i])
      {
        assert items[..i + 1][..i] == items[..i];
        units := units + items[i].quantity;
        value := value + items[i].price * items[i].quantity;
        i := i + 1;
      }
      assert items[..i] == items;
      totalItems := units;
      totalPrice := value;
    }
  }

  /** A stored cart document. */
  datatype StoredCart = StoredCart(id: nat, sessionId: string, items: seq<CartItem>, totalItems: int, totalPrice: int)

  /** What saving a document yields: stored, refused by the schema, refused by a unique index,
      or (for a document already stored) no longer present. */
  datatype SaveResult = Saved | ValidationError | DuplicateKey | DocumentNotFound

  /** Position of the stored document with this `_id`, or `|docs|`. */
  function IndexOfId(docs: seq<StoredCart>, id: nat): (k: nat)
    ensures k <= |docs|
    ensures k < |docs| ==> docs[k].id == id
    ensures k == |docs| ==> forall d :: d in docs ==> d.id != id
  {
    if docs == [] then 0
    else if docs[0].id == id then 0
    else 1 + IndexOfId(docs[1..], id)
  }

  /** Some stored document other than position `except` has this session id. */
  predicate SessionTaken(docs: seq<StoredCart>, sessionId: string, except: int)
  {
    exists j :: 0 <= j < |docs| && j != except && docs[j].sessionId == sessionId
  }

  /** The carts collection, with its unique `_id` and unique `sessionId` indexes. */
  class CartCollection {
    var docs: seq<StoredCart>

    ghost predicate Valid()
      reads this
    {
      && (forall i, j :: 0 <= i < j < |docs| ==> docs[i].id != docs[j].id && docs[i].sessionId != docs[j].sessionId)
      && (forall d :: d in docs ==>
            SchemaValid(d.sessionId, d.items)
            && d.totalItems == TotalItems(d.items) && d.totalPrice == TotalPrice(d.items))
    }

    constructor()
      ensures Valid() && docs == []
    {
      docs := [];
    }

    /** save(): schema validation first, then the pre-save hook, then the write, which the
        unique indexes may refuse. A new document is inserted; a stored one replaces its
        earlier version. */
    method Save(doc: CartDocument) returns (r: SaveResult)
      requires Valid()
      modifies this, doc
      ensures Valid()
      ensures doc.sessionId == old(doc.sessionId) && doc.items == old(doc.items)
      ensures !SchemaValid(doc.sessionId, doc.items) ==>
        r == ValidationError && docs == old(docs)
        && doc.totalItems == old(doc.totalItems) && doc.totalPrice == old(doc.totalPrice) && doc.isNew == old(doc.isNew)
      ensures SchemaValid(doc.sessionId, doc.items) ==>
        doc.totalItems == TotalItems(doc.items) && doc.totalPrice == TotalPrice(doc.items)
      ensures SchemaValid(doc.sessionId, doc.items) && old(doc.isNew) ==>
        var stored := StoredCart(doc.id, doc.sessionId, doc.items, doc.totalItems, doc.totalPrice);
        if IndexOfId(old(docs), doc.id) < |old(docs)| || SessionTaken(old(docs), doc.sessionId, -1) then
          r == DuplicateKey && docs == old(docs) && doc.isNew
        else
          r == Saved && docs == old(docs) + [stored] && !doc.isNew
      ensures SchemaValid(doc.sessionId, doc.items) && !old(doc.isNew) ==>
        var k := IndexOfId(old(docs), doc.id);
        var stored := StoredCart(doc.id, doc.sessionId, doc.items, doc.totalItems, doc.totalPrice);
        && !doc.isNew
        && (k == |old(docs)| ==> r == DocumentNotFound && docs == old(docs))
        && (k < |old(docs)| && SessionTaken(old(docs), doc.sessionId, k) ==> r == DuplicateKey && docs == old(docs))
        && (k < |old(docs)| && !SessionTaken(old(docs), doc.sessionId, k) ==> r == Saved && docs == old(docs)[k := stored])
    {
      if !SchemaValid(doc.sessionId, doc.items) {
        return ValidationError;
      }
      doc.PreSave();
      var stored := StoredCart(doc.id, doc.sessionId, doc.items, doc.totalItems, doc.totalPrice);
      var k := IndexOfId(docs, doc.id);
      if doc.isNew {
        if k < |docs| || SessionTaken(docs, doc.sessionId, -1) {
          return DuplicateKey;
        }
        docs := docs + [stored];
        doc.isNew := false;
        return Saved;
      }
      if k == |docs| {
        return DocumentNotFound;
      }
      if SessionTaken(docs, doc.sessionId, k) {
        return DuplicateKey;
      }
      docs := docs[k := stored];
      return Saved;
    }
  }
}
