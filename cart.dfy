/**
 * The cart helpers `addCart`, `incCart`, `decCart`, `removeCart`, the
 * aggregations `cartTotal` and the item count, and the bookkeeping
 * invariant they keep: quantities stay positive and ids stay unique.
 */
module Cart {
  import opened Wrappers
  import opened Products
  import opened Seqs

  /** `CartItem`: one cart line. The source's `qty` is a number; nothing in the type forces it positive. */
  datatype CartItem = CartItem(id: Id, qty: int)

  /** Some line has this id: the test `addCart` makes before bumping a line. */
  predicate HasLine(c: seq<CartItem>, id: Id) {
    exists i :: 0 <= i < |c| && c[i].id == id
  }

  /** How many lines have this id. */
  function CountLines(c: seq<CartItem>, id: Id): nat {
    if c == [] then 0 else (if c[0].id == id then 1 else 0) + CountLines(c[1..], id)
  }

  /** No two lines share an id. */
  ghost predicate UniqueLines(c: seq<CartItem>) {
    forall i, j :: 0 <= i < j < |c| ==> c[i].id != c[j].id
  }

  /** Every line has a positive quantity. */
  ghost predicate PositiveQty(c: seq<CartItem>) {
    forall i :: 0 <= i < |c| ==> c[i].qty >= 1
  }

  /** The cart invariant: quantities are positive and ids unique. */
  ghost predicate WellFormed(c: seq<CartItem>) {
    PositiveQty(c) && UniqueLines(c)
  }

  /* ----------------------------- the helpers ----------------------------- */

  /** `incCart`: every line with this id gains one unit; the others, the length and the order stay. */
  function IncCart(c: seq<CartItem>, id: Id): (r: seq<CartItem>)
    ensures |r| == |c|
    ensures forall i :: 0 <= i < |c| ==> r[i].id == c[i].id
    ensures forall i :: 0 <= i < |c| ==>
      r[i].qty == if c[i].id == id then c[i].qty + 1 else c[i].qty
  {
    if c == [] then []
    else [if c[0].id == id then c[0].(qty := c[0].qty + 1) else c[0]] + IncCart(c[1..], id)
  }

  /** `addCart`: bump the existing line, or append a new line with quantity 1. */
  function AddCart(c: seq<CartItem>, id: Id): (r: seq<CartItem>)
    ensures HasLine(r, id)
    ensures !HasLine(c, id) ==> r == c + [CartItem(id, 1)]
    ensures HasLine(c, id) ==> |r| == |c| && forall i :: 0 <= i < |c| ==>
      r[i].id == c[i].id && r[i].qty == if c[i].id == id then c[i].qty + 1 else c[i].qty
  {
    if HasLine(c, id) then IncCart(c, id)
    else
      var r := c + [CartItem(id, 1)];
      assert r[|c|].id == id;
      r
  }

  /**
   * `decCart`: a line with this id and quantity above 1 loses one unit, one
   * with quantity 1 (or less) disappears; all other lines are kept.
   */
  function DecCart(c: seq<CartItem>, id: Id): (r: seq<CartItem>)
    ensures |r| <= |c|
    ensures !HasLine(c, id) ==> r == c
  {
    if c == [] then []
    else
      assert !HasLine(c, id) ==> !HasLine(c[1..], id) by {
        if HasLine(c[1..], id) {
          var i :| 0 <= i < |c[1..]| && c[1..][i].id == id;
          assert c[i + 1].id == id;
        }
      }
      (if c[0].id == id then (if c[0].qty > 1 then [c[0].(qty := c[0].qty - 1)] else []) else [c[0]])
      + DecCart(c[1..], id)
  }

  /** `removeCart`: exactly the lines without this id, in their order. */
  function RemoveCart(c: seq<CartItem>, id: Id): (r: seq<CartItem>)
    ensures !HasLine(r, id)
    ensures IsSubseq(r, c)
    ensures |r| == |c| - CountLines(c, id)
    ensures forall x :: x in c && x.id != id ==> x in r
  {
    if c == [] then []
    else
      var rest := RemoveCart(c[1..], id);
      var r := (if c[0].id != id then [c[0]] else []) + rest;
      assert IsSubseq(r, c) by {
        if c[0].id != id {
          assert r != [] && r[0] == c[0] && r[1..] == rest;
        } else {
          assert r == rest;
        }
      }
      assert forall i :: 0 <= i < |r| ==> r[i] == c[0] || r[i] in rest;
      assert forall x :: x in c ==> x == c[0] || x in c[1..];
      r
  }

  /* ----------------------------- aggregation ----------------------------- */

  /** The positive-quantity property passes to every prefix. */
  lemma PositivePrefix(c: seq<CartItem>, n: nat)
    requires PositiveQty(c) && n <= |c|
    ensures PositiveQty(c[..n])
  {
    forall i | 0 <= i < n ensures c[..n][i].qty >= 1 {
      assert c[..n][i] == c[i];
    }
  }

  /**
   * `itemsInCart`: the quantities summed from the left, as `reduce` does;
   * with positive quantities it is at least the number of lines.
   */
  function ItemsInCart(c: seq<CartItem>): (n: int)
    ensures PositiveQty(c) ==> n >= |c|
  {
    if c == [] then 0
    else
      var init := c[..|c| - 1];
      assert PositiveQty(c) ==> PositiveQty(init) by {
        if PositiveQty(c) {
          PositivePrefix(c, |c| - 1);
        }
      }
      ItemsInCart(init) + c[|c| - 1].qty
  }

  /**
   * What one line adds to the total: the price of the first product with the
   * line's id times the quantity, or 0 when no product has the id.
   */
  function LineValue(it: CartItem, ps: seq<Product>): (v: int)
    ensures !HasProduct(ps, it.id) ==> v == 0
    ensures forall k :: FirstWithId(ps, it.id, k) ==> v == ps[k].price * it.qty
    ensures it.qty >= 0 ==> v >= 0
  {
    match Find(ps, it.id)
    case Some(p) =>
      forall k | FirstWithId(ps, it.id, k) ensures ps[k] == p {
        FindFirst(ps, it.id, k);
      }
      if it.qty >= 0 then
        MulNonNegative(p.price, it.qty);
        p.price * it.qty
      else
        p.price * it.qty
    case None => 0
  }

  lemma MulNonNegative(a: nat, b: nat)
    ensures a * b >= 0
  {
  }

  /**
   * `cartTotal`: the line values summed from the left, as `reduce` does. With
   * positive quantities it is never negative.
   */
  function CartTotal(c: seq<CartItem>, ps: seq<Product>): (t: int)
    ensures PositiveQty(c) ==> t >= 0
  {
    if c == [] then 0
    else
      var init := c[..|c| - 1];
      assert PositiveQty(c) ==> PositiveQty(init) by {
        if PositiveQty(c) {
          PositivePrefix(c, |c| - 1);
        }
      }
      CartTotal(init, ps) + LineValue(c[|c| - 1], ps)
  }

  /* ------------------------------- lemmas -------------------------------- */

  lemma {:induction false} ItemsConcat(a: seq<CartItem>, b: seq<CartItem>)
    ensures ItemsInCart(a + b) == ItemsInCart(a) + ItemsInCart(b)
    decreases |b|
  {
    if b == [] {
      assert a + b == a;
    } else {
      assert (a + b)[..|a + b| - 1] == a + b[..|b| - 1];
      ItemsConcat(a, b[..|b| - 1]);
    }
  }

  lemma {:induction false} TotalConcat(a: seq<CartItem>, b: seq<CartItem>, ps: seq<Product>)
    ensures CartTotal(a + b, ps) == CartTotal(a, ps) + CartTotal(b, ps)
    decreases |b|
  {
    if b == [] {
      assert a + b == a;
    } else {
      assert (a + b)[..|a + b| - 1] == a + b[..|b| - 1];
      TotalConcat(a, b[..|b| - 1], ps);
    }
  }

  lemma HasLineCons(c: seq<CartItem>, id: Id)
    requires c != []
    ensures HasLine(c, id) <==> c[0].id == id || HasLine(c[1..], id)
  {
    if HasLine(c[1..], id) {
      var i :| 0 <= i < |c[1..]| && c[1..][i].id == id;
      assert c[i + 1].id == id;
    }
    if HasLine(c, id) && c[0].id != id {
      var i :| 0 <= i < |c| && c[i].id == id;
      assert c[1..][i - 1].id == id;
    }
  }

  /** With unique ids, at most the one matching line is counted. */
  lemma {:induction false} CountUnique(c: seq<CartItem>, id: Id)
    requires UniqueLines(c)
    ensures CountLines(c, id) == if HasLine(c, id) then 1 else 0
  {
    if c != [] {
      HasLineCons(c, id);
      CountUnique(c[1..], id);
      if c[0].id == id {
        assert forall i :: 0 <= i < |c[1..]| ==> c[1..][i].id != id by {
          forall i | 0 <= i < |c[1..]| ensures c[1..][i].id != id {
            assert c[1..][i] == c[i + 1];
          }
        }
      }
    }
  }

  lemma ItemsSingle(x: CartItem)
    ensures ItemsInCart([x]) == x.qty
  {
    assert [x][..0] == [];
  }

  /** `incCart` raises the item count by the number of matching lines. */
  lemma {:induction false} ItemsIncCart(c: seq<CartItem>, id: Id)
    ensures ItemsInCart(IncCart(c, id)) == ItemsInCart(c) + CountLines(c, id)
  {
    if c != [] {
      ItemsIncCart(c[1..], id);
      ItemsIncFront(c, id);
    }
  }

  /** The first line's share of `ItemsIncCart`, given the claim for the rest. */
  lemma ItemsIncFront(c: seq<CartItem>, id: Id)
    requires c != []
    requires ItemsInCart(IncCart(c[1..], id)) == ItemsInCart(c[1..]) + CountLines(c[1..], id)
    ensures ItemsInCart(IncCart(c, id)) == ItemsInCart(c) + CountLines(c, id)
  {
    var r := IncCart(c, id);
    var bump := if c[0].id == id then 1 else 0;
    assert r == [r[0]] + IncCart(c[1..], id);
    assert r[0].qty == c[0].qty + bump;
    ItemsFront(c);
    ItemsFront(r);
  }

  /** The item count is the first line's quantity plus the count of the rest. */
  lemma ItemsFront(c: seq<CartItem>)
    requires c != []
    ensures ItemsInCart(c) == c[0].qty + ItemsInCart(c[1..])
  {
    assert c == [c[0]] + c[1..];
    ItemsConcat([c[0]], c[1..]);
    ItemsSingle(c[0]);
  }

  /** On a well-formed cart, `addCart` raises the item count by exactly one. */
  lemma AddCartCount(c: seq<CartItem>, id: Id)
    requires UniqueLines(c)
    ensures ItemsInCart(AddCart(c, id)) == ItemsInCart(c) + 1
  {
    if HasLine(c, id) {
      ItemsIncCart(c, id);
      CountUnique(c, id);
    } else {
      ItemsConcat(c, [CartItem(id, 1)]);
      assert ItemsInCart([CartItem(id, 1)]) == 1;
    }
  }

  /** `incCart` on a cart without the id returns it unchanged. */
  lemma IncCartAbsent(c: seq<CartItem>, id: Id)
    requires !HasLine(c, id)
    ensures IncCart(c, id) == c
  {
    var r := IncCart(c, id);
    assert forall i :: 0 <= i < |c| ==> c[i].id != id;
    assert forall i :: 0 <= i < |c| ==> r[i] == c[i];
  }

  lemma {:induction false} DecCartConcat(a: seq<CartItem>, b: seq<CartItem>, id: Id)
    ensures DecCart(a + b, id) == DecCart(a, id) + DecCart(b, id)
  {
    if a == [] {
      assert a + b == b;
    } else {
      assert (a + b)[1..] == a[1..] + b;
      DecCartConcat(a[1..], b, id);
    }
  }

  lemma {:induction false} RemoveCartConcat(a: seq<CartItem>, b: seq<CartItem>, id: Id)
    ensures RemoveCart(a + b, id) == RemoveCart(a, id) + RemoveCart(b, id)
  {
    if a == [] {
      assert a + b == b;
    } else {
      assert (a + b)[1..] == a[1..] + b;
      RemoveCartConcat(a[1..], b, id);
    }
  }

  /** `removeCart` on a cart without the id returns it unchanged. */
  lemma {:induction false} RemoveCartAbsent(c: seq<CartItem>, id: Id)
    requires !HasLine(c, id)
    ensures RemoveCart(c, id) == c
  {
    if c != [] {
      HasLineCons(c, id);
      RemoveCartAbsent(c[1..], id);
    }
  }

  /** `removeCart` is idempotent. */
  lemma RemoveCartIdempotent(c: seq<CartItem>, id: Id)
    ensures RemoveCart(RemoveCart(c, id), id) == RemoveCart(c, id)
  {
    RemoveCartAbsent(RemoveCart(c, id), id);
  }

  /** `decCart` keeps every line with another id, in its order. */
  lemma {:induction false} DecCartKeepsOthers(c: seq<CartItem>, id: Id)
    ensures RemoveCart(DecCart(c, id), id) == RemoveCart(c, id)
  {
    if c != [] {
      var head := if c[0].id == id then (if c[0].qty > 1 then [c[0].(qty := c[0].qty - 1)] else []) else [c[0]];
      DecCartKeepsOthers(c[1..], id);
      RemoveCartConcat(head, DecCart(c[1..], id), id);
      assert RemoveCart(head, id) == (if c[0].id != id then [c[0]] else []) by {
        if c[0].id == id && c[0].qty > 1 {
          assert RemoveCart(head, id) == RemoveCart(head[1..], id);
        }
      }
    }
  }

  /** With unique ids the one matching line sits at `k`: the cart splits around it. */
  lemma SplitAt(c: seq<CartItem>, id: Id, k: nat)
    requires UniqueLines(c) && k < |c| && c[k].id == id
    ensures c == c[..k] + [c[k]] + c[k + 1..]
    ensures !HasLine(c[..k], id) && !HasLine(c[k + 1..], id)
  {
    assert c == c[..k] + [c[k]] + c[k + 1..];
    forall i | 0 <= i < k ensures c[..k][i].id != id {
      assert c[..k][i] == c[i];
    }
    var post := c[k + 1..];
    forall i | 0 <= i < |post| ensures post[i].id != id {
      assert post[i] == c[k + 1 + i];
    }
  }

  /** `decCart` acts on the one matching line `x` alone when no other line has its id. */
  lemma DecCartMiddle(pre: seq<CartItem>, x: CartItem, post: seq<CartItem>, id: Id)
    requires !HasLine(pre, id) && !HasLine(post, id) && x.id == id
    ensures DecCart(pre + [x] + post, id) ==
      pre + (if x.qty > 1 then [x.(qty := x.qty - 1)] else []) + post
  {
    var mid := if x.qty > 1 then [x.(qty := x.qty - 1)] else [];
    DecCartConcat(pre + [x], post, id);
    DecCartConcat(pre, [x], id);
    DecSingle(x);
    assert DecCart(pre, id) == pre && DecCart(post, id) == post;
    assert DecCart(pre + [x] + post, id) == pre + mid + post;
  }

  lemma RemoveCartDropLast(pre: seq<CartItem>, x: CartItem, id: Id)
    requires x.id == id
    ensures RemoveCart(pre + [x], id) == RemoveCart(pre, id)
  {
    RemoveCartConcat(pre, [x], id);
    assert RemoveCart([x], id) == [];
  }

  /** `removeCart` drops the one matching line `x` alone when no other line has its id. */
  lemma RemoveCartMiddle(pre: seq<CartItem>, x: CartItem, post: seq<CartItem>, id: Id)
    requires !HasLine(pre, id) && !HasLine(post, id) && x.id == id
    ensures RemoveCart(pre + [x] + post, id) == pre + post
  {
    RemoveCartConcat(pre + [x], post, id);
    RemoveCartDropLast(pre, x, id);
    RemoveCartAbsent(pre, id);
    RemoveCartAbsent(post, id);
  }

  /**
   * On a cart with unique ids whose line `k` has the id, `decCart` lowers that
   * line by one when its quantity is above 1 and removes it otherwise.
   */
  lemma DecCartAt(c: seq<CartItem>, id: Id, k: nat)
    requires UniqueLines(c) && k < |c| && c[k].id == id
    ensures DecCart(c, id) ==
      if c[k].qty > 1 then c[k := c[k].(qty := c[k].qty - 1)] else c[..k] + c[k + 1..]
  {
    SplitAt(c, id, k);
    DecCartMiddle(c[..k], c[k], c[k + 1..], id);
    if c[k].qty > 1 {
      assert c[k := c[k].(qty := c[k].qty - 1)] == c[..k] + [c[k].(qty := c[k].qty - 1)] + c[k + 1..];
    } else {
      assert c[..k] + [] + c[k + 1..] == c[..k] + c[k + 1..];
    }
  }

  /** On a cart with unique ids whose line `k` has the id, `removeCart` drops exactly that line. */
  lemma RemoveCartAt(c: seq<CartItem>, id: Id, k: nat)
    requires UniqueLines(c) && k < |c| && c[k].id == id
    ensures RemoveCart(c, id) == c[..k] + c[k + 1..]
  {
    SplitAt(c, id, k);
    RemoveCartMiddle(c[..k], c[k], c[k + 1..], id);
  }

  /** Dropping one line keeps a cart well formed. */
  lemma WellFormedWithout(c: seq<CartItem>, k: nat)
    requires WellFormed(c) && k < |c|
    ensures WellFormed(c[..k] + c[k + 1..])
  {
    var r := c[..k] + c[k + 1..];
    assert forall i :: 0 <= i < |r| ==> r[i] == c[if i < k then i else i + 1];
  }

  /** Replacing one line by a line with the same id and a positive quantity keeps a cart well formed. */
  lemma WellFormedUpdate(c: seq<CartItem>, k: nat, y: CartItem)
    requires WellFormed(c) && k < |c| && y.id == c[k].id && y.qty >= 1
    ensures WellFormed(c[k := y])
  {
    var r := c[k := y];
    assert forall i :: 0 <= i < |r| ==> r[i].id == c[i].id && r[i].qty >= 1;
  }

  /** The item count of a cart split around one line. */
  lemma ItemsMiddle(pre: seq<CartItem>, x: CartItem, post: seq<CartItem>)
    ensures ItemsInCart(pre + [x] + post) == ItemsInCart(pre) + x.qty + ItemsInCart(post)
  {
    ItemsConcat(pre + [x], post);
    ItemsConcat(pre, [x]);
    assert ItemsInCart([x]) == x.qty;
  }

  /** `decCart` on a well-formed cart takes one unit off the item count when the id is present. */
  lemma DecCartCount(c: seq<CartItem>, id: Id)
    requires WellFormed(c)
    ensures ItemsInCart(DecCart(c, id)) == ItemsInCart(c) - (if HasLine(c, id) then 1 else 0)
  {
    if HasLine(c, id) {
      var k :| 0 <= k < |c| && c[k].id == id;
      SplitAt(c, id, k);
      DecCountMiddle(c[..k], c[k], c[k + 1..], id);
    }
  }

  lemma DecCountMiddle(pre: seq<CartItem>, x: CartItem, post: seq<CartItem>, id: Id)
    requires !HasLine(pre, id) && !HasLine(post, id) && x.id == id && x.qty >= 1
    ensures ItemsInCart(DecCart(pre + [x] + post, id)) == ItemsInCart(pre + [x] + post) - 1
  {
    var mid := if x.qty > 1 then [x.(qty := x.qty - 1)] else [];
    DecCartMiddle(pre, x, post, id);
    ItemsConcat(pre + mid, post);
    ItemsConcat(pre, mid);
    ItemsMiddle(pre, x, post);
    assert ItemsInCart(mid) == x.qty - 1;
  }

  /* ------------------------- the cart invariant -------------------------- */

  lemma IncCartWellFormed(c: seq<CartItem>, id: Id)
    requires WellFormed(c)
    ensures WellFormed(IncCart(c, id))
  {
  }

  lemma AddCartWellFormed(c: seq<CartItem>, id: Id)
    requires WellFormed(c)
    ensures WellFormed(AddCart(c, id))
  {
    if !HasLine(c, id) {
      var r := AddCart(c, id);
      assert forall i :: 0 <= i < |c| ==> r[i] == c[i];
      assert forall i :: 0 <= i < |c| ==> c[i].id != id;
    }
  }

  lemma DecCartWellFormed(c: seq<CartItem>, id: Id)
    requires WellFormed(c)
    ensures WellFormed(DecCart(c, id))
  {
    if HasLine(c, id) {
      var k :| 0 <= k < |c| && c[k].id == id;
      DecCartAt(c, id, k);
      if c[k].qty <= 1 {
        WellFormedWithout(c, k);
      } else {
        WellFormedUpdate(c, k, c[k].(qty := c[k].qty - 1));
      }
    }
  }

  lemma RemoveCartWellFormed(c: seq<CartItem>, id: Id)
    requires WellFormed(c)
    ensures WellFormed(RemoveCart(c, id))
  {
    if HasLine(c, id) {
      var k :| 0 <= k < |c| && c[k].id == id;
      RemoveCartAt(c, id, k);
      WellFormedWithout(c, k);
    } else {
      RemoveCartAbsent(c, id);
    }
  }

  /** The four cart handlers (`addToCart`, `incItem`, `decItem`, `removeItem`). */
  datatype CartOp = Add(id: Id) | Inc(id: Id) | Dec(id: Id) | Remove(id: Id)

  /** The cart after one handler call; each handler keeps a well-formed cart well formed. */
  function Apply(c: seq<CartItem>, op: CartOp): (r: seq<CartItem>)
    ensures WellFormed(c) ==> WellFormed(r)
  {
    match op
    case Add(id) =>
      assert WellFormed(c) ==> WellFormed(AddCart(c, id)) by {
        if WellFormed(c) { AddCartWellFormed(c, id); }
      }
      AddCart(c, id)
    case Inc(id) =>
      assert WellFormed(c) ==> WellFormed(IncCart(c, id)) by {
        if WellFormed(c) { IncCartWellFormed(c, id); }
      }
      IncCart(c, id)
    case Dec(id) =>
      assert WellFormed(c) ==> WellFormed(DecCart(c, id)) by {
        if WellFormed(c) { DecCartWellFormed(c, id); }
      }
      DecCart(c, id)
    case Remove(id) =>
      assert WellFormed(c) ==> WellFormed(RemoveCart(c, id)) by {
        if WellFormed(c) { RemoveCartWellFormed(c, id); }
      }
      RemoveCart(c, id)
  }

  /** The cart after a sequence of handler calls; every such sequence keeps a well-formed cart well formed. */
  function Run(c: seq<CartItem>, ops: seq<CartOp>): (r: seq<CartItem>)
    ensures WellFormed(c) ==> WellFormed(r)
    decreases |ops|
  {
    if ops == [] then c else Run(Apply(c, ops[0]), ops[1..])
  }

  /** Starting from the empty cart, the initial state of the cart cell, no quantity is ever below 1 and no id repeats. */
  lemma ReachableWellFormed(ops: seq<CartOp>)
    ensures WellFormed(Run([], ops))
  {
  }

  /* ---------------------------- the totals ------------------------------- */

  /** The total is the first line's value plus the total of the rest. */
  lemma TotalFront(c: seq<CartItem>, ps: seq<Product>)
    requires c != []
    ensures CartTotal(c, ps) == LineValue(c[0], ps) + CartTotal(c[1..], ps)
  {
    assert c == [c[0]] + c[1..];
    TotalConcat([c[0]], c[1..], ps);
    assert [c[0]][..0] == [];
  }

  /** A line whose id no product has contributes nothing: dropping such lines keeps the total. */
  lemma {:induction false} TotalIgnoresStale(c: seq<CartItem>, ps: seq<Product>, id: Id)
    requires !HasProduct(ps, id)
    ensures CartTotal(RemoveCart(c, id), ps) == CartTotal(c, ps)
  {
    if c != [] {
      TotalIgnoresStale(c[1..], ps, id);
      TotalFront(c, ps);
      var r, kept := RemoveCart(c, id), RemoveCart(c[1..], id);
      if c[0].id != id {
        assert r == [c[0]] + kept;
        assert r[1..] == kept;
        TotalFront(r, ps);
      } else {
        assert r == kept;
      }
    }
  }

  /** The total does not depend on the order of the lines: every rearrangement of a cart has its total. */
  lemma {:induction false} TotalPermutation(a: seq<CartItem>, b: seq<CartItem>, ps: seq<Product>)
    requires multiset(a) == multiset(b)
    ensures CartTotal(a, ps) == CartTotal(b, ps)
    decreases |a|
  {
    if a == [] {
      assert |b| == |multiset(b)| == 0;
    } else {
      var k := Seqs.MatchingIndex(a, b);
      TotalPermutation(a[1..], b[..k] + b[k + 1..], ps);
      TotalMoveFirst(a, b, k, ps);
    }
  }

  /** Moving one line to the front keeps the total, given the rest already agree. */
  lemma TotalMoveFirst(a: seq<CartItem>, b: seq<CartItem>, k: nat, ps: seq<Product>)
    requires a != [] && k < |b| && b[k] == a[0]
    requires CartTotal(a[1..], ps) == CartTotal(b[..k] + b[k + 1..], ps)
    ensures CartTotal(a, ps) == CartTotal(b, ps)
  {
    TotalFront(a, ps);
    TotalAt(b, k, ps);
  }

  /** The total of a cart is line `k`'s value plus the total of the other lines. */
  lemma TotalAt(c: seq<CartItem>, k: nat, ps: seq<Product>)
    requires k < |c|
    ensures CartTotal(c, ps) == LineValue(c[k], ps) + CartTotal(c[..k] + c[k + 1..], ps)
  {
    var pre, post := c[..k], c[k + 1..];
    assert c == pre + [c[k]] + post;
    TotalConcat(pre + [c[k]], post, ps);
    TotalConcat(pre, [c[k]], ps);
    TotalConcat(pre, post, ps);
    assert [c[k]][..0] == [];
  }

  /** Swapping two blocks of lines keeps the total. */
  lemma TotalSwap(a: seq<CartItem>, b: seq<CartItem>, ps: seq<Product>)
    ensures CartTotal(a + b, ps) == CartTotal(b + a, ps)
  {
    TotalConcat(a, b, ps);
    TotalConcat(b, a, ps);
  }

  /* ------------------------------ scenarios ------------------------------ */

  /** The file's own runtime checks: add gives one line of 1, inc makes 2, dec makes 1, dec empties. */
  lemma RuntimeChecks()
    ensures var c1 := AddCart([], "r1");
            |c1| == 1 && c1[0].qty == 1
            && var c2 := IncCart(c1, "r1");
            c2[0].qty == 2
            && var c3 := DecCart(c2, "r1");
            c3[0].qty == 1
            && |DecCart(c3, "r1")| == 0
  {
    var c1 := AddCart([], "r1");
    assert c1 == [CartItem("r1", 1)];
    var c2 := IncCart(c1, "r1");
    assert c2[0] == CartItem("r1", 2);
    assert c2 == [CartItem("r1", 2)];
    DecSingle(CartItem("r1", 2));
    DecSingle(CartItem("r1", 1));
  }

  /** `decCart` on a one-line cart for that line's id. */
  lemma DecSingle(x: CartItem)
    ensures DecCart([x], x.id) == if x.qty > 1 then [x.(qty := x.qty - 1)] else []
  {
    assert [x][1..] == [];
  }

  /** `cartTotal([{id: "a", qty: 3}], [a at 1000]) == 3000`. */
  lemma TotalExample()
    ensures CartTotal([CartItem("a", 3)], [Product("a", "A", TopUp, 1000, 40, "", None)]) == 3000
  {
    var ps := [Product("a", "A", TopUp, 1000, 40, "", None)];
    assert Find(ps, "a") == Some(ps[0]);
  }
}
