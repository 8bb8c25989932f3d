/**
 * The inventory updaters the storefront passes to `setProducts`: create
 * (prepend), delete (filter by id), update (replace by id, with the edit
 * form's fallbacks), bulk import, and the start-up load with its fallback to
 * the seed list.
 */
module Inventory {
  import opened Wrappers
  import opened Products
  import opened Text
  import opened Seqs

  /* ------------------------------- create -------------------------------- */

  /**
   * The product the create form submits. The id comes from the caller (the
   * source draws it at random); an empty badge becomes `undefined`.
   */
  function NewProduct(id: Id, name: string, category: Category, price: nat,
                      rating: int, image: string, badge: string): (p: Product)
    ensures p.id == id && p.name == name && p.category == category
    ensures p.price == price && p.rating == rating && p.image == image
    ensures p.badge.Some? <==> badge != []
    ensures p.badge.Some? ==> p.badge.value == badge
  {
    Product(id, name, category, price, rating, image, if badge == [] then None else Some(badge))
  }

  /** The create updater: the new product goes first, the rest follow unchanged. */
  function CreateProduct(prev: seq<Product>, p: Product): (r: seq<Product>)
    ensures |r| == |prev| + 1 && r[0] == p && r[1..] == prev
  {
    [p] + prev
  }

  /** Creating with a fresh id keeps ids unique, and the new product is what `find` returns for it. */
  lemma CreateFresh(prev: seq<Product>, p: Product)
    requires UniqueIds(prev) && !HasProduct(prev, p.id)
    ensures UniqueIds(CreateProduct(prev, p))
    ensures Find(CreateProduct(prev, p), p.id) == Some(p)
  {
    var r := CreateProduct(prev, p);
    forall i, j | 0 <= i < j < |r| ensures r[i].id != r[j].id {
      assert r[j] == prev[j - 1];
      if i > 0 {
        assert r[i] == prev[i - 1];
      }
    }
  }

  /** Creating a product does not change what `find` returns for any other id. */
  lemma CreateKeepsOthers(prev: seq<Product>, p: Product, id: Id)
    requires id != p.id
    ensures Find(CreateProduct(prev, p), id) == Find(prev, id)
  {
    assert CreateProduct(prev, p)[1..] == prev;
  }

  /* ------------------------------- delete -------------------------------- */

  /**
   * The delete updater: filter the list down to the products whose id differs,
   * keeping their order and every copy of each.
   */
  function DeleteProduct(prev: seq<Product>, id: Id): (r: seq<Product>)
    ensures !HasProduct(r, id)
    ensures IsSubseq(r, prev)
    ensures forall x :: multiset(r)[x] == if x.id == id then 0 else multiset(prev)[x]
  {
    if prev == [] then []
    else
      var rest := DeleteProduct(prev[1..], id);
      var head := if prev[0].id != id then [prev[0]] else [];
      var r := head + rest;
      assert forall x :: multiset(r)[x] == if x.id == id then 0 else multiset(prev)[x] by {
        assert prev == [prev[0]] + prev[1..];
        assert multiset(prev) == multiset([prev[0]]) + multiset(prev[1..]);
        assert multiset(r) == multiset(head) + multiset(rest);
      }
      assert IsSubseq(r, prev) by {
        if prev[0].id != id {
          assert r != [] && r[0] == prev[0] && r[1..] == rest;
        } else {
          assert r == rest;
        }
      }
      forall i | 0 <= i < |r| ensures r[i].id != id {
        assert multiset(r)[r[i]] > 0;
      }
      r
  }

  /** After a delete, `find` misses the deleted id and finds every other id as before. */
  lemma {:induction false} FindAfterDelete(prev: seq<Product>, id: Id, other: Id)
    ensures Find(DeleteProduct(prev, id), other) == if other == id then None else Find(prev, other)
  {
    if other == id {
      var d := DeleteProduct(prev, id);
      assert !HasProduct(d, id);
    } else if prev != [] {
      FindAfterDelete(prev[1..], id, other);
      FindDeleteFront(prev, id, other);
    }
  }

  /** The first product's share of `FindAfterDelete`, given the claim for the rest. */
  lemma FindDeleteFront(prev: seq<Product>, id: Id, other: Id)
    requires prev != [] && other != id
    requires Find(DeleteProduct(prev[1..], id), other) == Find(prev[1..], other)
    ensures Find(DeleteProduct(prev, id), other) == Find(prev, other)
  {
    DeleteFront(prev, id);
    FindSkip(prev, DeleteProduct(prev[1..], id), id, other);
  }

  /** Dropping a first product of another id, or keeping it, does not change what `find` returns. */
  lemma FindSkip(prev: seq<Product>, rest: seq<Product>, id: Id, other: Id)
    requires prev != [] && other != id && Find(rest, other) == Find(prev[1..], other)
    ensures Find((if prev[0].id != id then [prev[0]] else []) + rest, other) == Find(prev, other)
  {
    if prev[0].id != id {
      FindCons(prev[0], rest, other);
    } else {
      assert [] + rest == rest;
    }
  }

  /** One unfolding of the delete updater. */
  lemma DeleteFront(prev: seq<Product>, id: Id)
    requires prev != []
    ensures DeleteProduct(prev, id) == (if prev[0].id != id then [prev[0]] else []) + DeleteProduct(prev[1..], id)
  {
  }

  /** A subsequence of a list with unique ids has unique ids. */
  lemma {:induction false} SubseqUniqueIds(s: seq<Product>, t: seq<Product>)
    requires IsSubseq(s, t) && UniqueIds(t)
    ensures UniqueIds(s)
    decreases |t|
  {
    if t != [] {
      assert UniqueIds(t[1..]) by {
        forall i, j | 0 <= i < j < |t[1..]| ensures t[1..][i].id != t[1..][j].id {
          assert t[1..][i] == t[i + 1] && t[1..][j] == t[j + 1];
        }
      }
      if s != [] && s[0] == t[0] && IsSubseq(s[1..], t[1..]) {
        SubseqUniqueIds(s[1..], t[1..]);
        SubseqMultiset(s[1..], t[1..]);
        forall j | 0 < j < |s| ensures s[0].id != s[j].id {
          assert s[1..][j - 1] == s[j];
          assert s[j] in multiset(t[1..]);
          var k :| 0 <= k < |t[1..]| && t[1..][k] == s[j];
          assert t[k + 1] == s[j];
        }
      } else {
        SubseqUniqueIds(s, t[1..]);
      }
    }
  }

  /** Deleting keeps ids unique. */
  lemma DeleteUniqueIds(prev: seq<Product>, id: Id)
    requires UniqueIds(prev)
    ensures UniqueIds(DeleteProduct(prev, id))
  {
    SubseqUniqueIds(DeleteProduct(prev, id), prev);
  }

  /* ------------------------------- update -------------------------------- */

  /** The edit form's fields (strings as typed, price and rating as numbers). */
  datatype EditForm = EditForm(
    name: string,
    category: Category,
    price: nat,
    rating: int,
    badge: string,
    image: string)

  /**
   * The record the edit form saves for `editing`: same id; the trimmed name
   * and image, falling back to the old ones when they trim to nothing; the
   * new category, price and rating; the trimmed badge, or none when empty.
   */
  function EditedProduct(editing: Product, f: EditForm): (r: Product)
    ensures r.id == editing.id
    ensures r.name == if Trim(f.name) == [] then editing.name else Trim(f.name)
    ensures r.image == if Trim(f.image) == [] then editing.image else Trim(f.image)
    ensures r.category == f.category && r.price == f.price && r.rating == f.rating
    ensures r.badge == if Trim(f.badge) == [] then None else Some(Trim(f.badge))
  {
    var name := Trim(f.name);
    var image := Trim(f.image);
    var badge := Trim(f.badge);
    Product(
      editing.id,
      if name != [] then name else editing.name,
      f.category,
      f.price,
      f.rating,
      if image != [] then image else editing.image,
      if badge != [] then Some(badge) else None)
  }

  /** The update updater: every product with this id becomes `updated`; the others stay in place. */
  function ReplaceById(prev: seq<Product>, id: Id, updated: Product): (r: seq<Product>)
    ensures |r| == |prev|
    ensures forall i :: 0 <= i < |prev| ==> r[i] == if prev[i].id == id then updated else prev[i]
  {
    if prev == [] then [] else [if prev[0].id == id then updated else prev[0]] + ReplaceById(prev[1..], id, updated)
  }

  /**
   * The edit's whole effect on the inventory: the length, every position's id
   * and every product with another id stay; the products with the edited id
   * become the edited record.
   */
  function UpdateProduct(prev: seq<Product>, editing: Product, f: EditForm): (r: seq<Product>)
    ensures |r| == |prev|
    ensures forall i :: 0 <= i < |prev| ==> r[i].id == prev[i].id
    ensures forall i :: 0 <= i < |prev| && prev[i].id != editing.id ==> r[i] == prev[i]
    ensures forall i :: 0 <= i < |prev| && prev[i].id == editing.id ==> r[i] == EditedProduct(editing, f)
  {
    ReplaceKeepsIds(prev, editing.id, EditedProduct(editing, f));
    ReplaceById(prev, editing.id, EditedProduct(editing, f))
  }

  /** Replacing by a record with the same id keeps every position's id. */
  lemma ReplaceKeepsIds(prev: seq<Product>, id: Id, u: Product)
    requires u.id == id
    ensures forall i :: 0 <= i < |prev| ==> ReplaceById(prev, id, u)[i].id == prev[i].id
  {
  }

  /** Replacing by a record with the same id keeps ids unique, and `find` then returns that record. */
  lemma ReplaceUniqueIds(prev: seq<Product>, id: Id, u: Product)
    requires UniqueIds(prev) && u.id == id
    ensures UniqueIds(ReplaceById(prev, id, u))
    ensures HasProduct(prev, id) ==> Find(ReplaceById(prev, id, u), id) == Some(u)
  {
    var r := ReplaceById(prev, id, u);
    ReplaceKeepsIds(prev, id, u);
    forall i, j | 0 <= i < j < |r| ensures r[i].id != r[j].id {
      assert r[i].id == prev[i].id && r[j].id == prev[j].id;
    }
    if HasProduct(prev, id) {
      var i :| 0 <= i < |prev| && prev[i].id == id;
      forall j | 0 <= j < i ensures r[j].id != id {
        assert r[j].id == prev[j].id;
      }
      assert r[i] == u;
      FindFirst(r, id, i);
    }
  }

  /** An edit keeps ids unique, and `find` then returns the edited record for that id. */
  lemma UpdateUniqueIds(prev: seq<Product>, editing: Product, f: EditForm)
    requires UniqueIds(prev)
    ensures UniqueIds(UpdateProduct(prev, editing, f))
    ensures HasProduct(prev, editing.id) ==>
      Find(UpdateProduct(prev, editing, f), editing.id) == Some(EditedProduct(editing, f))
  {
    ReplaceUniqueIds(prev, editing.id, EditedProduct(editing, f));
  }

  /* ------------------------------- import -------------------------------- */

  /** The contents of an imported file after `JSON.parse`. */
  datatype ImportPayload =
    | Malformed                      // JSON.parse throws
    | NotAnArray                     // valid JSON that is not an array
    | AnArray(items: seq<Product>)   // an array, taken as products unchecked

  /** What the user sees: the list replaced, nothing at all, or the "invalid JSON file" alert. */
  datatype ImportOutcome = Replaced | Ignored | InvalidFile

  /**
   * The import handler: an array replaces the inventory; anything else leaves
   * it as it was, with an alert only when the file did not parse.
   */
  function ImportProducts(prev: seq<Product>, payload: ImportPayload): (r: (seq<Product>, ImportOutcome))
    ensures r.1 == Replaced <==> payload.AnArray?
    ensures r.1 == InvalidFile <==> payload.Malformed?
    ensures r.0 == if payload.AnArray? then payload.items else prev
  {
    match payload
    case AnArray(items) => (items, Replaced)
    case NotAnArray => (prev, Ignored)
    case Malformed => (prev, InvalidFile)
  }

  /* -------------------------------- load --------------------------------- */

  /** What the `inventory` key of local storage holds at start-up. */
  datatype InventorySnapshot =
    | NoSnapshot                     // absent, or the empty string
    | Unreadable                     // storage or JSON.parse throws
    | Stored(items: seq<Product>)    // the parsed value, used unchecked

  /** The initial inventory: the stored list, else a copy of the seed list. */
  function LoadInventory(s: InventorySnapshot): (r: seq<Product>)
    ensures s.Stored? ==> r == s.items
    ensures !s.Stored? ==> r == Seed
  {
    match s
    case Stored(items) => items
    case _ => Seed
  }

  /** Without a usable snapshot the inventory starts with unique ids. */
  lemma LoadFallbackUnique(s: InventorySnapshot)
    requires !s.Stored?
    ensures UniqueIds(LoadInventory(s))
  {
    SeedUniqueIds();
  }
}
