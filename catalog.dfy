/** The read-only product catalog: listing with the category filter, lookup by id,
    the category list and the free-text search of the products table. */
module Catalog {
  import opened Wrappers
  import opened Seqs
  import opened Text

  /** A row of the products table. Prices are integer cents; `rating` is in tenths of a star;
      `createdAt` is the row's creation time. */
  datatype Product = Product(
    id: string,
    name: string,
    description: string,
    price: nat,
    originalPrice: Option<nat>,
    image: string,
    category: string,
    badge: Option<string>,
    rating: int,
    reviews: nat,
    stock: int,
    createdAt: int)

  /** `id` is the primary key of the products table. */
  predicate UniqueIds(products: seq<Product>)
  {
    forall i, j :: 0 <= i < j < |products| ==> products[i].id != products[j].id
  }

  predicate HasProduct(products: seq<Product>, id: string)
  {
    exists i :: 0 <= i < |products| && products[i].id == id
  }

  /** `ORDER BY created_at DESC`: a newer product may precede an older one. */
  predicate NewerFirst(a: Product, b: Product)
  {
    a.createdAt >= b.createdAt
  }

  lemma NewerFirstIsTotalPreorder()
    ensures TotalPreorder(NewerFirst)
  {
  }

  /** A category argument narrows the listing unless it is missing, empty or the sentinel "All". */
  predicate NarrowsListing(category: Option<string>)
  {
    category.Some? && category.value != "" && category.value != "All"
  }

  predicate InListing(category: Option<string>, p: Product)
  {
    !NarrowsListing(category) || p.category == category.value
  }

  /** getAllProducts: the products of the category (all of them for "All" or no category),
      each exactly as often as in the table, newest first. */
  function GetAllProducts(products: seq<Product>, category: Option<string>): (r: seq<Product>)
    ensures !NarrowsListing(category) ==> multiset(r) == multiset(products)
    ensures NarrowsListing(category) ==>
      forall p :: p in r <==> p in products && p.category == category.value
    ensures forall p :: multiset(r)[p] == if InListing(category, p) then multiset(products)[p] else 0
    ensures SortedBy(r, NewerFirst)
  {
    NewerFirstIsTotalPreorder();
    var selected := Filter(products, p => InListing(category, p));
    SortBy(selected, NewerFirst)
  }

  /** getProductById: the product with that id, or None when there is none. */
  function GetProductById(products: seq<Product>, id: string): (r: Option<Product>)
    ensures r.Some? <==> HasProduct(products, id)
    ensures r.Some? ==> r.value in products && r.value.id == id
    ensures r.Some? && UniqueIds(products) ==>
      forall i :: 0 <= i < |products| && products[i].id == id ==> products[i] == r.value
  {
    if products == [] then None
    else if products[0].id == id then Some(products[0])
    else
      var rest := GetProductById(products[1..], id);
      assert HasProduct(products, id) ==> HasProduct(products[1..], id) by {
        if HasProduct(products, id) {
          var i :| 0 <= i < |products| && products[i].id == id;
          assert i != 0 && products[1..][i - 1].id == id;
        }
      }
      assert HasProduct(products[1..], id) ==> HasProduct(products, id) by {
        if HasProduct(products[1..], id) {
          var i :| 0 <= i < |products[1..]| && products[1..][i].id == id;
          assert products[i + 1].id == id;
        }
      }
      rest
  }

  /** getCategories: "All", then every category of the catalog once, in ascending order. */
  function GetCategories(products: seq<Product>): (r: seq<string>)
    ensures |r| >= 1 && r[0] == "All"
    ensures forall c :: c in r[1..] <==> exists p :: p in products && p.category == c
    ensures forall i, j :: 1 <= i < j < |r| ==> StrLe(r[i], r[j]) && r[i] != r[j]
  {
    var categories := seq(|products|, i requires 0 <= i < |products| => products[i].category);
    StrLeIsTotalPreorder();
    var ordered := SortBy(categories, StrLe);
    DistinctSorted(ordered, StrLe);
    var distinct := Distinct(ordered);
    var r := ["All"] + distinct;
    assert r[1..] == distinct;
    assert forall c :: c in categories <==> exists p :: p in products && p.category == c by {
      forall c | c in categories ensures exists p :: p in products && p.category == c {
        var i :| 0 <= i < |categories| && categories[i] == c;
        assert products[i] in products;
      }
      forall c | exists p :: p in products && p.category == c ensures c in categories {
        var p :| p in products && p.category == c;
        var i :| 0 <= i < |products| && products[i] == p;
        assert categories[i] == c;
      }
    }
    assert forall c :: c in ordered <==> c in categories by {
      forall c ensures c in ordered <==> c in categories {
        assert c in ordered <==> c in multiset(ordered);
        assert c in categories <==> c in multiset(categories);
      }
    }
    r
  }

  /** The product's name or description contains the query, ignoring case: `ILIKE '%query%'`. */
  ghost predicate MatchesQuery(p: Product, query: string)
  {
    Occurs(Lower(query), Lower(p.name)) || Occurs(Lower(query), Lower(p.description))
  }

  predicate SearchHit(query: string, p: Product)
  {
    ContainsIgnoringCase(p.name, query) || ContainsIgnoringCase(p.description, query)
  }

  lemma SearchHitMeansMatch(products: seq<Product>, query: string)
    ensures forall p :: p in products ==> (SearchHit(query, p) <==> MatchesQuery(p, query))
  {
    forall p | p in products ensures SearchHit(query, p) <==> MatchesQuery(p, query) {
      ContainsIffOccurs(Lower(p.name), Lower(query));
      ContainsIffOccurs(Lower(p.description), Lower(query));
    }
  }

  /** searchProducts: exactly the products whose name or description contains the query
      case-insensitively, in table order. */
  function SearchProducts(products: seq<Product>, query: string): (r: seq<Product>)
    ensures forall p :: p in r <==> p in products && MatchesQuery(p, query)
    ensures forall p :: p in products && !MatchesQuery(p, query) ==> multiset(r)[p] == 0
    ensures forall p :: p in products && MatchesQuery(p, query) ==> multiset(r)[p] == multiset(products)[p]
  {
    SearchHitMeansMatch(products, query);
    Filter(products, p => SearchHit(query, p))
  }
}
