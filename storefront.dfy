/**
 * The `Storefront` component's state cells and the handlers that overwrite
 * them. Each handler assigns the result of the pure helper the source calls
 * inside its `set...` updater; the derived values (`filtered`,
 * `itemsInCart`, `total`) are functions of the current state.
 */
module Shop {
  import opened Products
  import opened Cart
  import opened Catalog
  import opened Inventory
  import opened Branding

  class Storefront {
    var cart: seq<CartItem>
    var products: seq<Product>
    var brand: Brand
    var query: string
    var category: Category
    var sortKey: SortKey

    /** The cart invariant holds in every state the handlers reach. */
    ghost predicate Valid()
      reads this
    {
      WellFormed(cart)
    }

    /** Mounting: empty cart, inventory and brand from storage (or their defaults), no filter. */
    constructor (inventory: InventorySnapshot, stored: BrandSnapshot)
      ensures Valid()
      ensures cart == [] && products == LoadInventory(inventory) && brand == LoadBrand(stored)
      ensures query == "" && category == All && sortKey == Relevance
    {
      cart := [];
      products := LoadInventory(inventory);
      brand := LoadBrand(stored);
      query := "";
      category := All;
      sortKey := Relevance;
    }

    /** `filtered`: the catalog view of the current inventory and filter cells. */
    function Filtered(): (r: seq<Product>)
      reads this
      ensures r == View(products, category, Needle(query), sortKey)
      ensures forall p :: p in r <==> p in products && Matches(p, category, Needle(query))
    {
      View(products, category, Needle(query), sortKey)
    }

    /** `itemsInCart`: never less than the number of lines. */
    function ItemsInCart(): (n: int)
      reads this
      requires Valid()
      ensures n == Cart.ItemsInCart(cart)
      ensures n >= |cart|
    {
      Cart.ItemsInCart(cart)
    }

    /** `total`: the cart total against the current inventory, never negative. */
    function Total(): (t: int)
      reads this
      requires Valid()
      ensures t == CartTotal(cart, products)
      ensures t >= 0
    {
      CartTotal(cart, products)
    }

    /** `addToCart` (the drawer opening is not modelled): one more item in the cart. */
    method AddToCart(id: Id)
      requires Valid()
      modifies this
      ensures Valid()
      ensures cart == AddCart(old(cart), id)
      ensures Cart.ItemsInCart(cart) == Cart.ItemsInCart(old(cart)) + 1
      ensures products == old(products) && brand == old(brand)
      ensures query == old(query) && category == old(category) && sortKey == old(sortKey)
    {
      AddCartWellFormed(cart, id);
      AddCartCount(cart, id);
      cart := AddCart(cart, id);
    }

    /** `incItem`. */
    method IncItem(id: Id)
      requires Valid()
      modifies this
      ensures Valid()
      ensures cart == IncCart(old(cart), id)
      ensures products == old(products) && brand == old(brand)
      ensures query == old(query) && category == old(category) && sortKey == old(sortKey)
    {
      IncCartWellFormed(cart, id);
      cart := IncCart(cart, id);
    }

    /** `decItem`: one item fewer when the line exists. */
    method DecItem(id: Id)
      requires Valid()
      modifies this
      ensures Valid()
      ensures cart == DecCart(old(cart), id)
      ensures Cart.ItemsInCart(cart) == Cart.ItemsInCart(old(cart)) - (if HasLine(old(cart), id) then 1 else 0)
      ensures products == old(products) && brand == old(brand)
      ensures query == old(query) && category == old(category) && sortKey == old(sortKey)
    {
      DecCartWellFormed(cart, id);
      DecCartCount(cart, id);
      cart := DecCart(cart, id);
    }

    /** `removeItem`. */
    method RemoveItem(id: Id)
      requires Valid()
      modifies this
      ensures Valid()
      ensures cart == RemoveCart(old(cart), id)
      ensures products == old(products) && brand == old(brand)
      ensures query == old(query) && category == old(category) && sortKey == old(sortKey)
    {
      RemoveCartWellFormed(cart, id);
      cart := RemoveCart(cart, id);
    }

    /** The search box, the category select and the sort select. */
    method SetFilter(q: string, c: Category, k: SortKey)
      requires Valid()
      modifies this
      ensures Valid()
      ensures query == q && category == c && sortKey == k
      ensures cart == old(cart) && products == old(products) && brand == old(brand)
    {
      query, category, sortKey := q, c, k;
    }

    /**
     * The create form's `onAdd`: the new product goes first. The id, drawn at
     * random in the source, is taken as one no product has yet.
     */
    method AddProduct(id: Id, name: string, c: Category, price: nat, rating: int, image: string, badge: string)
      requires Valid()
      requires !HasProduct(products, id)
      modifies this
      ensures Valid()
      ensures products == CreateProduct(old(products), NewProduct(id, name, c, price, rating, image, badge))
      ensures UniqueIds(old(products)) ==> UniqueIds(products)
      ensures cart == old(cart) && brand == old(brand)
      ensures query == old(query) && category == old(category) && sortKey == old(sortKey)
    {
      var p := NewProduct(id, name, c, price, rating, image, badge);
      if UniqueIds(products) {
        CreateFresh(products, p);
      }
      products := CreateProduct(products, p);
    }

    /** The delete button. Cart lines for the product stay and now count 0 toward the total. */
    method DeleteProduct(id: Id)
      requires Valid()
      modifies this
      ensures Valid()
      ensures products == Inventory.DeleteProduct(old(products), id)
      ensures UniqueIds(old(products)) ==> UniqueIds(products)
      ensures CartTotal(cart, products) == CartTotal(RemoveCart(cart, id), old(products))
      ensures cart == old(cart) && brand == old(brand)
      ensures query == old(query) && category == old(category) && sortKey == old(sortKey)
    {
      var d := Inventory.DeleteProduct(products, id);
      assert UniqueIds(products) ==> UniqueIds(d) by {
        if UniqueIds(products) {
          DeleteUniqueIds(products, id);
        }
      }
      TotalAfterDelete(cart, products, id);
      products := d;
    }

    /** The edit form's submit for the product `editing`. */
    method SubmitEdit(editing: Product, f: EditForm)
      requires Valid()
      modifies this
      ensures Valid()
      ensures products == UpdateProduct(old(products), editing, f)
      ensures UniqueIds(old(products)) ==> UniqueIds(products)
      ensures cart == old(cart) && brand == old(brand)
      ensures query == old(query) && category == old(category) && sortKey == old(sortKey)
    {
      var updated := UpdateProduct(products, editing, f);
      assert UniqueIds(products) ==> UniqueIds(updated) by {
        if UniqueIds(products) {
          UpdateUniqueIds(products, editing, f);
        }
      }
      products := updated;
    }

    /** The import input: an array replaces the inventory, anything else leaves it. */
    method ImportFile(payload: ImportPayload) returns (outcome: ImportOutcome)
      requires Valid()
      modifies this
      ensures Valid()
      ensures (products, outcome) == ImportProducts(old(products), payload)
      ensures cart == old(cart) && brand == old(brand)
      ensures query == old(query) && category == old(category) && sortKey == old(sortKey)
    {
      var r := ImportProducts(products, payload);
      products := r.0;
      outcome := r.1;
    }

    /** The brand settings' save button. */
    method SaveBrandSettings(f: BrandForm)
      requires Valid()
      modifies this
      ensures Valid()
      ensures brand == SaveBrand(f) && brand.siteName != []
      ensures cart == old(cart) && products == old(products)
      ensures query == old(query) && category == old(category) && sortKey == old(sortKey)
    {
      brand := SaveBrand(f);
    }
  }

  /**
   * Deleting a product zeroes what its cart lines add to the total and
   * leaves every other line's price as it was.
   */
  lemma {:induction false} TotalAfterDelete(c: seq<CartItem>, ps: seq<Product>, id: Id)
    ensures CartTotal(c, Inventory.DeleteProduct(ps, id)) == CartTotal(RemoveCart(c, id), ps)
    decreases |c|
  {
    if c != [] {
      var d := Inventory.DeleteProduct(ps, id);
      var r, kept := RemoveCart(c, id), RemoveCart(c[1..], id);
      TotalAfterDelete(c[1..], ps, id);
      TotalFront(c, d);
      LineAfterDelete(c[0], ps, id);
      if c[0].id != id {
        assert r == [c[0]] + kept;
        assert r[1..] == kept;
        TotalFront(r, ps);
      } else {
        assert r == kept;
      }
    }
  }

  /** A line's value after a delete: 0 for the deleted id, unchanged for every other id. */
  lemma LineAfterDelete(x: CartItem, ps: seq<Product>, id: Id)
    ensures LineValue(x, Inventory.DeleteProduct(ps, id)) == if x.id == id then 0 else LineValue(x, ps)
  {
    FindAfterDelete(ps, id, x.id);
  }

  /** The one-product inventory of the storefront scenario: "a" at 1000. */
  const ScenarioInventory: seq<Product> := [Product("a", "A", TopUp, 1000, 40, "", Wrappers.None)]

  lemma ScenarioLine(q: int)
    ensures CartTotal([CartItem("a", q)], ScenarioInventory) == 1000 * q
  {
    FindCons(ScenarioInventory[0], [], "a");
    assert [CartItem("a", q)][..0] == [];
  }

  /**
   * The storefront scenario: add "a" gives one line and total 1000; inc
   * gives 2 and 2000; two decs empty the cart, total 0.
   */
  lemma ScenarioTotals()
    ensures AddCart([], "a") == [CartItem("a", 1)]
    ensures CartTotal([CartItem("a", 1)], ScenarioInventory) == 1000
    ensures IncCart([CartItem("a", 1)], "a") == [CartItem("a", 2)]
    ensures CartTotal([CartItem("a", 2)], ScenarioInventory) == 2000
    ensures DecCart(DecCart([CartItem("a", 2)], "a"), "a") == []
    ensures CartTotal([], ScenarioInventory) == 0
  {
    ScenarioLine(1);
    ScenarioLine(2);
    assert AddCart([], "a") == [CartItem("a", 1)];
    assert DecCart([CartItem("a", 2)], "a") == [CartItem("a", 1)];
    assert DecCart([CartItem("a", 1)], "a") == [];
  }
}
