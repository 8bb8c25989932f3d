/**
 * The catalog view (`filtered`): keep the products of the chosen category
 * whose name contains the trimmed query case-insensitively, then sort a copy
 * with the comparator of the chosen key. `Array.prototype.sort` is stable
 * (ECMAScript 2019 and later), so the sort here is a stable insertion sort
 * driven by the source's own comparators.
 */
module Catalog {
  import opened Wrappers
  import opened Products
  import opened Text
  import opened Seqs

  /**
   * The text every name is searched for: the query with white space trimmed
   * from both ends, in lower case. It is never longer than the query, has no
   * upper-case letter, and a query of white space only gives the empty text.
   */
  function Needle(query: string): (n: string)
    ensures |n| <= |query|
    ensures forall i :: 0 <= i < |n| ==> !('A' <= n[i] <= 'Z')
    ensures (forall k :: 0 <= k < |query| ==> IsSpace(query[k])) ==> n == []
  {
    var t := Trim(query);
    assert (forall k :: 0 <= k < |query| ==> IsSpace(query[k])) ==> t == [] by {
      if forall k :: 0 <= k < |query| ==> IsSpace(query[k]) {
        TrimBlank(query);
      }
    }
    ToLower(t)
  }

  /**
   * The filter test: the category is "All" or the product's own, and the
   * lower-cased name contains the needle. A matched needle is never longer
   * than the name; the empty needle leaves only the category test.
   */
  predicate Matches(p: Product, category: Category, needle: string)
    ensures Matches(p, category, needle) ==> |needle| <= |p.name|
    ensures needle == [] ==> (Matches(p, category, needle) <==> category == All || p.category == category)
  {
    assert needle == [] ==> OccursAt(ToLower(p.name), needle, 0);
    && (category == All || p.category == category)
    && Contains(ToLower(p.name), needle)
  }

  /**
   * The catalog filter for the search text `needle`: the matching products in
   * inventory order, every copy of a matching product kept.
   */
  function FilterProducts(ps: seq<Product>, category: Category, needle: string): (r: seq<Product>)
    ensures IsSubseq(r, ps)
    ensures forall p :: p in r ==> Matches(p, category, needle)
    ensures forall p :: p in ps && Matches(p, category, needle) ==> p in r
    ensures forall p :: multiset(r)[p] == if Matches(p, category, needle) then multiset(ps)[p] else 0
  {
    if ps == [] then []
    else
      var rest := FilterProducts(ps[1..], category, needle);
      var head := if Matches(ps[0], category, needle) then [ps[0]] else [];
      var r := head + rest;
      assert ps == [ps[0]] + ps[1..];
      assert multiset(ps) == multiset([ps[0]]) + multiset(ps[1..]);
      assert multiset(r) == multiset(head) + multiset(rest);
      assert IsSubseq(r, ps) by {
        if Matches(ps[0], category, needle) {
          assert r != [] && r[0] == ps[0] && r[1..] == rest;
        } else {
          assert r == rest;
        }
      }
      assert forall p :: p in r ==> p == ps[0] || p in rest;
      assert forall p :: p in ps ==> p == ps[0] || p in ps[1..];
      r
  }

  /**
   * The sort position a key gives a product: smaller comes first. Price
   * ascending, price descending and rating descending; relevance gives every
   * product the same position.
   */
  function Rank(key: SortKey, p: Product): int {
    match key
    case Relevance => 0
    case PriceAsc => p.price
    case PriceDesc => -(p.price as int)
    case Rating => -p.rating
  }

  /**
   * The comparators of the sort keys, each a difference: price ascending,
   * price descending and rating descending; a positive result puts `b` before
   * `a`. Relevance has no comparator in the source; it is 0 here.
   */
  function Compare(key: SortKey, a: Product, b: Product): (r: int)
    ensures r == Rank(key, a) - Rank(key, b)
  {
    match key
    case Relevance => 0
    case PriceAsc => a.price - b.price
    case PriceDesc => b.price - a.price
    case Rating => b.rating - a.rating
  }

  /** The comparator never puts a later element before an earlier one. */
  ghost predicate Sorted(s: seq<Product>, key: SortKey) {
    forall i, j :: 0 <= i < j < |s| ==> Rank(key, s[i]) <= Rank(key, s[j])
  }

  /** The elements of `s` whose rank is `v`, in their order in `s`. */
  function SameRank(s: seq<Product>, key: SortKey, v: int): seq<Product> {
    if s == [] then []
    else SameRank(s[..|s| - 1], key, v) + (if Rank(key, s[|s| - 1]) == v then [s[|s| - 1]] else [])
  }

  /**
   * One insertion step: `x` moves left past every element the comparator puts
   * after it and stops behind the first one it does not (so equal ranks keep
   * their order).
   */
  function Insert(s: seq<Product>, x: Product, key: SortKey): (r: seq<Product>)
    ensures multiset(r) == multiset(s) + multiset{x}
  {
    if s == [] || Compare(key, s[|s| - 1], x) <= 0 then s + [x]
    else
      assert s == s[..|s| - 1] + [s[|s| - 1]];
      Insert(s[..|s| - 1], x, key) + [s[|s| - 1]]
  }

  /** The stable sort `[...list].sort(cmp)`, built by inserting the elements one by one. */
  function SortBy(s: seq<Product>, key: SortKey): (r: seq<Product>)
    ensures multiset(r) == multiset(s)
    ensures Sorted(r, key)
  {
    if s == [] then []
    else
      assert s == s[..|s| - 1] + [s[|s| - 1]];
      var t := SortBy(s[..|s| - 1], key);
      InsertSorted(t, s[|s| - 1], key);
      Insert(t, s[|s| - 1], key)
  }

  lemma SortedSnoc(t: seq<Product>, y: Product, key: SortKey)
    requires Sorted(t, key)
    requires forall z :: z in t ==> Rank(key, z) <= Rank(key, y)
    ensures Sorted(t + [y], key)
  {
    var r := t + [y];
    forall i, j | 0 <= i < j < |r| ensures Rank(key, r[i]) <= Rank(key, r[j]) {
      assert r[i] == t[i];
      if j == |t| {
        assert t[i] in t;
      } else {
        assert r[j] == t[j];
      }
    }
  }

  /** Inserting into a sorted sequence gives a sorted sequence. */
  lemma {:induction false} InsertSorted(s: seq<Product>, x: Product, key: SortKey)
    requires Sorted(s, key)
    ensures Sorted(Insert(s, x, key), key)
    decreases |s|
  {
    if s == [] {
    } else if Compare(key, s[|s| - 1], x) <= 0 {
      forall z | z in s ensures Rank(key, z) <= Rank(key, x) {
        var i :| 0 <= i < |s| && s[i] == z;
        assert i == |s| - 1 || Rank(key, s[i]) <= Rank(key, s[|s| - 1]);
      }
      SortedSnoc(s, x, key);
    } else {
      var init, last := s[..|s| - 1], s[|s| - 1];
      assert Sorted(init, key) by {
        forall i, j | 0 <= i < j < |init| ensures Rank(key, init[i]) <= Rank(key, init[j]) {
          assert init[i] == s[i] && init[j] == s[j];
        }
      }
      InsertSorted(init, x, key);
      var t := Insert(init, x, key);
      forall z | z in t ensures Rank(key, z) <= Rank(key, last) {
        assert z in multiset(t);
        if z != x {
          assert z in multiset(init);
          var i :| 0 <= i < |init| && init[i] == z;
          assert s[i] == z;
        }
      }
      SortedSnoc(t, last, key);
    }
  }

  lemma SameRankSnoc(t: seq<Product>, y: Product, key: SortKey, v: int)
    ensures SameRank(t + [y], key, v) == SameRank(t, key, v) + (if Rank(key, y) == v then [y] else [])
  {
    assert (t + [y])[..|t|] == t;
  }

  /** Insertion places `x` after every element of its own rank. */
  lemma {:induction false} InsertStable(s: seq<Product>, x: Product, key: SortKey, v: int)
    ensures SameRank(Insert(s, x, key), key, v)
         == SameRank(s, key, v) + (if Rank(key, x) == v then [x] else [])
    decreases |s|
  {
    if s == [] || Compare(key, s[|s| - 1], x) <= 0 {
      SameRankSnoc(s, x, key, v);
    } else {
      var init, last := s[..|s| - 1], s[|s| - 1];
      var t := Insert(init, x, key);
      var one := (a: Product) => if Rank(key, a) == v then [a] else [];
      assert s == init + [last];
      assert Insert(s, x, key) == t + [last];
      calc {
        SameRank(t + [last], key, v);
        { SameRankSnoc(t, last, key, v); }
        SameRank(t, key, v) + one(last);
        { InsertStable(init, x, key, v); }
        SameRank(init, key, v) + one(x) + one(last);
        { assert one(x) == [] || one(last) == []; }
        SameRank(init, key, v) + one(last) + one(x);
        { SameRankSnoc(init, last, key, v); }
        SameRank(s, key, v) + one(x);
      }
    }
  }

  /** The sort is stable: equally ranked elements come out in their input order. */
  lemma {:induction false} SortByStable(s: seq<Product>, key: SortKey, v: int)
    ensures SameRank(SortBy(s, key), key, v) == SameRank(s, key, v)
    decreases |s|
  {
    if s != [] {
      var init, last := s[..|s| - 1], s[|s| - 1];
      assert s == init + [last];
      SortByStable(init, key, v);
      InsertStable(SortBy(init, key), last, key, v);
      SameRankSnoc(init, last, key, v);
    }
  }

  /** `filtered` for the search text `needle`: the matching products, sorted by the chosen key; relevance keeps inventory order. */
  function View(ps: seq<Product>, category: Category, needle: string, key: SortKey): (r: seq<Product>)
    ensures multiset(r) == multiset(FilterProducts(ps, category, needle))
    ensures forall p :: p in r <==> p in ps && Matches(p, category, needle)
    ensures key == Relevance ==> IsSubseq(r, ps)
    ensures key == PriceAsc ==> forall i, j :: 0 <= i < j < |r| ==> r[i].price <= r[j].price
    ensures key == PriceDesc ==> forall i, j :: 0 <= i < j < |r| ==> r[i].price >= r[j].price
    ensures key == Rating ==> forall i, j :: 0 <= i < j < |r| ==> r[i].rating >= r[j].rating
  {
    var list := FilterProducts(ps, category, needle);
    var r := match key
      case Relevance => list
      case _ => SortBy(list, key);
    SameElements(r, list);
    FilterMembers(ps, category, needle);
    SortedMeaning(r, key);
    r
  }

  /** A product is in the filtered list exactly when it is in the inventory and matches. */
  lemma FilterMembers(ps: seq<Product>, category: Category, needle: string)
    ensures forall p :: p in FilterProducts(ps, category, needle) <==> p in ps && Matches(p, category, needle)
  {
    var list := FilterProducts(ps, category, needle);
    SubseqMultiset(list, ps);
    SubseqMembers(list, ps);
  }

  lemma SameElements(a: seq<Product>, b: seq<Product>)
    requires multiset(a) == multiset(b)
    ensures forall p :: p in a <==> p in b
  {
    forall p ensures p in a <==> p in b {
      assert p in a <==> p in multiset(a);
      assert p in b <==> p in multiset(b);
    }
  }

  lemma SubseqMembers(a: seq<Product>, b: seq<Product>)
    requires multiset(a) <= multiset(b)
    ensures forall p :: p in a ==> p in b
  {
    forall p | p in a ensures p in b {
      assert p in multiset(a);
    }
  }

  /** What sortedness means for each key, in the record's own fields. */
  lemma SortedMeaning(r: seq<Product>, key: SortKey)
    requires key != Relevance ==> Sorted(r, key)
    ensures key == PriceAsc ==> forall i, j :: 0 <= i < j < |r| ==> r[i].price <= r[j].price
    ensures key == PriceDesc ==> forall i, j :: 0 <= i < j < |r| ==> r[i].price >= r[j].price
    ensures key == Rating ==> forall i, j :: 0 <= i < j < |r| ==> r[i].rating >= r[j].rating
  {
    if key != Relevance {
      forall i, j | 0 <= i < j < |r| ensures Rank(key, r[i]) <= Rank(key, r[j]) {
      }
    }
  }

  /** Within each group of equal sort keys the view keeps the filtered (inventory) order. */
  lemma ViewStable(ps: seq<Product>, category: Category, needle: string, key: SortKey, v: int)
    ensures SameRank(View(ps, category, needle, key), key, v)
         == SameRank(FilterProducts(ps, category, needle), key, v)
  {
    if key != Relevance {
      SortByStable(FilterProducts(ps, category, needle), key, v);
    }
  }

  /** A blank query and category "All" keep the whole inventory. */
  lemma BlankQueryKeepsAll(ps: seq<Product>, query: string)
    requires forall k :: 0 <= k < |query| ==> IsSpace(query[k])
    ensures FilterProducts(ps, All, Needle(query)) == ps
  {
    EmptyNeedleKeepsAll(ps);
  }

  /** The empty search text matches every name. */
  lemma {:induction false} EmptyNeedleKeepsAll(ps: seq<Product>)
    ensures FilterProducts(ps, All, []) == ps
  {
    if ps != [] {
      EmptyNeedleKeepsAll(ps[1..]);
    }
  }

  /** The query "a" is unchanged by trimming and lower-casing. */
  lemma ExampleQuery()
    ensures Needle("a") == "a"
  {
    assert !IsSpace('a');
    assert SkipSpaces("a", 0) == 0;
    assert BackSpaces("a", 0, 1) == 1;
    assert Trim("a") == "a"[0..1] == "a";
    var r := ToLower("a");
    assert r[0] == LowerChar('a') == 'a';
  }

  lemma ExampleLowerAlpha()
    ensures ToLower("Alpha") == "alpha"
  {
    var r := ToLower("Alpha");
    assert r[0] == LowerChar('A') == 'a';
    assert r[1] == LowerChar('l') && r[2] == LowerChar('p') && r[3] == LowerChar('h') && r[4] == LowerChar('a');
  }

  lemma ExampleLowerBeta()
    ensures ToLower("Beta") == "beta"
  {
    var r := ToLower("Beta");
    assert r[0] == LowerChar('B') == 'b';
    assert r[1] == LowerChar('e') && r[2] == LowerChar('t') && r[3] == LowerChar('a');
  }

  /** Query "a" occurs in "Alpha" and in "Beta" once both are lower-cased. */
  lemma ExampleMatches()
    ensures Contains(ToLower("Alpha"), "a")
    ensures Contains(ToLower("Beta"), "a")
  {
    ExampleLowerAlpha();
    ExampleLowerBeta();
    OccursContains("alpha", "a", 0);
    OccursContains("beta", "a", 3);
  }

  /** Both example products match query "a" in category "All". */
  lemma ExampleBothMatch()
    ensures Matches(ExampleAlpha, All, "a") && Matches(ExampleBeta, All, "a")
  {
    ExampleMatches();
  }

  /** The first example product: "Alpha", Top Up, 200. */
  const ExampleAlpha := Product("x1", "Alpha", TopUp, 200, 40, "", None)

  /** The second example product: "Beta", Gift Card, 100. */
  const ExampleBeta := Product("x2", "Beta", GiftCard, 100, 40, "", None)

  /** One step of the filter: the head is kept exactly when it matches. */
  lemma FilterCons(ps: seq<Product>, category: Category, needle: string)
    requires ps != []
    ensures FilterProducts(ps, category, needle) ==
      (if Matches(ps[0], category, needle) then [ps[0]] else []) + FilterProducts(ps[1..], category, needle)
  {
  }

  /** Two matching products both pass the filter, in order. */
  lemma FilterBothMatch(a: Product, b: Product, category: Category, needle: string)
    requires Matches(a, category, needle) && Matches(b, category, needle)
    ensures FilterProducts([a, b], category, needle) == [a, b]
  {
    var ps := [a, b];
    assert ps[1..] == [b];
    FilterCons(ps, category, needle);
    assert [b][1..] == [];
    FilterCons([b], category, needle);
  }

  lemma ExampleFilter()
    ensures FilterProducts([ExampleAlpha, ExampleBeta], All, "a") == [ExampleAlpha, ExampleBeta]
  {
    ExampleBothMatch();
    FilterBothMatch(ExampleAlpha, ExampleBeta, All, "a");
  }

  lemma ExampleSort()
    ensures SortBy([ExampleAlpha, ExampleBeta], PriceAsc) == [ExampleBeta, ExampleAlpha]
  {
    var ps := [ExampleAlpha, ExampleBeta];
    assert ps[..1] == [ExampleAlpha];
    assert SortBy([ExampleAlpha], PriceAsc) == [ExampleAlpha];
    assert Insert([ExampleAlpha], ExampleBeta, PriceAsc) == [ExampleBeta, ExampleAlpha];
  }

  /** Query "a", category "All", price ascending over [Alpha 200, Beta 100]: both match and Beta comes first. */
  lemma ViewExample()
    ensures View([ExampleAlpha, ExampleBeta], All, Needle("a"), PriceAsc) == [ExampleBeta, ExampleAlpha]
  {
    ExampleQuery();
    ExampleFilter();
    ExampleSort();
  }
}
