/** The catalog's records: categories, sort keys, products and the built-in seed list. */
module Products {
  import opened Wrappers

  type Id = string

  /** `Category`; `All` is the filter value meaning "any category". */
  datatype Category = All | TopUp | GiftCard | GamePass | Bundle

  /** `SortKey` of the catalog view. */
  datatype SortKey = Relevance | PriceAsc | PriceDesc | Rating

  /**
   * `Product`. The price is in whole dong; the rating, a decimal number with
   * one digit after the point in the source, is kept in tenths (4.8 is 48).
   */
  datatype Product = Product(
    id: Id,
    name: string,
    category: Category,
    price: nat,
    rating: int,
    image: string,
    badge: Option<string>)

  /** No two products share an id. */
  ghost predicate UniqueIds(ps: seq<Product>) {
    forall i, j :: 0 <= i < j < |ps| ==> ps[i].id != ps[j].id
  }

  /** Some product has this id. */
  ghost predicate HasProduct(ps: seq<Product>, id: Id) {
    exists i :: 0 <= i < |ps| && ps[i].id == id
  }

  /** `k` is the first position whose product has this id. */
  ghost predicate FirstWithId(ps: seq<Product>, id: Id, k: int) {
    0 <= k < |ps| && ps[k].id == id && forall j :: 0 <= j < k ==> ps[j].id != id
  }

  /** The inventory lookup by id: the first product with this id, if any. */
  function Find(ps: seq<Product>, id: Id): (r: Option<Product>)
    ensures r.None? <==> !HasProduct(ps, id)
    ensures r.Some? ==> exists k :: FirstWithId(ps, id, k) && ps[k] == r.value
  {
    if ps == [] then None
    else if ps[0].id == id then
      assert FirstWithId(ps, id, 0);
      Some(ps[0])
    else
      var r := Find(ps[1..], id);
      assert forall k :: FirstWithId(ps[1..], id, k) ==> FirstWithId(ps, id, k + 1);
      assert HasProduct(ps[1..], id) ==> HasProduct(ps, id);
      assert HasProduct(ps, id) ==> HasProduct(ps[1..], id) by {
        if HasProduct(ps, id) {
          var i :| 0 <= i < |ps| && ps[i].id == id;
          assert ps[1..][i - 1].id == id;
        }
      }
      r
  }

  /** The image URL `img(q)` yields; it does not depend on `q`. */
  const SeedImage: string :=
    "https://images.unsplash.com/photo-1550745165-9bc0b252726f?q=80&w=1200&auto=format&fit=crop"

  /** `SEED`, the inventory used when nothing was stored. */
  const Seed: seq<Product> := [
    Product("r1", "Top-Up 800 Coins", TopUp, 49000, 48, SeedImage, Some("Hot")),
    Product("r2", "Top-Up 1,700 Coins", TopUp, 99000, 49, SeedImage, Some("Best seller")),
    Product("r3", "Gift Card 10K", GiftCard, 10000, 47, SeedImage, Some("New")),
    Product("r4", "Gift Card 25K", GiftCard, 25000, 46, SeedImage, None),
    Product("r5", "Game Pass \U{2013} Builder Kit", GamePass, 35000, 45, SeedImage, None),
    Product("r6", "Game Pass \U{2013} VIP", GamePass, 69900, 44, SeedImage, None),
    Product("r7", "Bundle Saver A", Bundle, 149000, 48, SeedImage, None),
    Product("r8", "Bundle Saver B", Bundle, 199000, 49, SeedImage, None)
  ]

  /** The seed ids are distinct. */
  lemma SeedUniqueIds()
    ensures UniqueIds(Seed)
  {
    assert forall i :: 0 <= i < |Seed| ==> Seed[i].id == ['r', "12345678"[i]];
  }

  lemma FindCons(x: Product, rest: seq<Product>, id: Id)
    ensures Find([x] + rest, id) == if x.id == id then Some(x) else Find(rest, id)
  {
    assert ([x] + rest)[1..] == rest;
  }

  /** `find` returns the product at the first position with the id. */
  lemma {:induction false} FindFirst(ps: seq<Product>, id: Id, k: nat)
    requires FirstWithId(ps, id, k)
    ensures Find(ps, id) == Some(ps[k])
  {
    if k > 0 {
      assert FirstWithId(ps[1..], id, k - 1);
      FindFirst(ps[1..], id, k - 1);
    }
  }
}
