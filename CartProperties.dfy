/**
 * What the cart updaters promise, proved about the functions of module Cart:
 * how an add changes the count and the total, merge on a repeated add, the
 * quantity floor under any run of +/- clicks, removal as an idempotent filter,
 * and the invariant `WellFormed` that all three updaters keep.
 */
module CartProperties {
  import opened Wrappers
  import opened Arrays
  import opened Prices
  import opened Cart

  // ---------------------------------------------------------------- folds

  /** The total of two carts laid end to end is the sum of their totals. */
  lemma {:induction false} TotalAppend(a: seq<CartItem>, b: seq<CartItem>)
    ensures Total(a + b) == Total(a) + Total(b)
    decreases |b|
  {
    if b == [] {
      assert a + b == a;
    } else {
      assert (a + b)[..|a + b| - 1] == a + b[..|b| - 1];
      TotalAppend(a, b[..|b| - 1]);
    }
  }

  /** The count of two carts laid end to end is the sum of their counts. */
  lemma {:induction false} CountAppend(a: seq<CartItem>, b: seq<CartItem>)
    ensures Count(a + b) == Count(a) + Count(b)
    decreases |b|
  {
    if b == [] {
      assert a + b == a;
    } else {
      assert (a + b)[..|a + b| - 1] == a + b[..|b| - 1];
      CountAppend(a, b[..|b| - 1]);
    }
  }

  /** In a reachable cart the badge shows at least one per line, so it reads 0
      exactly when the cart is empty. */
  lemma {:induction false} CountAtLeastLines(cart: seq<CartItem>)
    requires WellFormed(cart)
    ensures Count(cart) >= |cart|
    ensures Count(cart) == 0 <==> cart == []
  {
    if cart != [] {
      var init := cart[..|cart| - 1];
      assert WellFormed(init) by {
        assert forall i :: 0 <= i < |init| ==> init[i] == cart[i];
      }
      CountAtLeastLines(init);
    }
  }

  /** With non-negative prices the total is never negative. */
  lemma {:induction false} TotalNonNegative(cart: seq<CartItem>)
    requires forall i :: 0 <= i < |cart| ==> cart[i].quantity >= 1 && NumericPrice(cart[i].price) >= 0.0
    ensures Total(cart) >= 0.0
  {
    if cart != [] {
      var init := cart[..|cart| - 1];
      assert forall i :: 0 <= i < |init| ==> init[i] == cart[i];
      TotalNonNegative(init);
      var last := cart[|cart| - 1];
      TimesNonNegative(NumericPrice(last.price), last.quantity);
    }
  }

  lemma {:induction false} TimesNonNegative(price: real, k: int)
    requires price >= 0.0 && k >= 0
    ensures Times(price, k) >= 0.0
  {
    if k > 0 {
      TimesNonNegative(price, k - 1);
    }
  }

  // ---------------------------------------------------------------- add

  /** Lines bumped one by one: the count grows by `q` per matching line. */
  lemma {:induction false} BumpedCount(a: seq<CartItem>, b: seq<CartItem>, id: string,
                                       option: Option<ProductOption>, q: int)
    requires |a| == |b|
    requires forall i :: 0 <= i < |a| ==> b[i] == Bump(a[i], id, option, q)
    ensures Count(b) == Count(a) + q * MatchCount(a, id, option)
  {
    if a == [] {
      assert b == [];
    } else {
      var n := |a| - 1;
      BumpedPrefix(a, b, n, id, option, q);
      BumpedCount(a[..n], b[..n], id, option, q);
      BumpedCountStep(a, b, id, option, q);
    }
  }

  lemma BumpedPrefix(a: seq<CartItem>, b: seq<CartItem>, n: nat, id: string, option: Option<ProductOption>, q: int)
    requires |a| == |b| && n <= |a|
    requires forall i :: 0 <= i < |a| ==> b[i] == Bump(a[i], id, option, q)
    ensures forall i :: 0 <= i < n ==> b[..n][i] == Bump(a[..n][i], id, option, q)
  {
  }

  lemma BumpedCountStep(a: seq<CartItem>, b: seq<CartItem>, id: string, option: Option<ProductOption>, q: int)
    requires |a| == |b| > 0
    requires b[|a| - 1] == Bump(a[|a| - 1], id, option, q)
    requires Count(b[..|a| - 1]) == Count(a[..|a| - 1]) + q * MatchCount(a[..|a| - 1], id, option)
    ensures Count(b) == Count(a) + q * MatchCount(a, id, option)
  {
    var n := |a| - 1;
    var c := MatchCount(a[..n], id, option);
    var inc := if AddMatches(a[n], id, option) then 1 else 0;
    assert MatchCount(a, id, option) == c + inc;
    assert b[n].quantity == a[n].quantity + q * inc;
    MulDistributes(q, c, inc);
  }

  /** Lines bumped one by one: the total grows by `q` times the sum of the
      matching lines' stored unit prices. */
  lemma {:induction false} BumpedTotal(a: seq<CartItem>, b: seq<CartItem>, id: string,
                                       option: Option<ProductOption>, q: int)
    requires |a| == |b|
    requires forall i :: 0 <= i < |a| ==> b[i] == Bump(a[i], id, option, q)
    ensures Total(b) == Total(a) + Times(MatchedPrice(a, id, option), q)
  {
    if a == [] {
      assert b == [];
      TimesIsProduct(0.0, q);
    } else {
      var n := |a| - 1;
      BumpedPrefix(a, b, n, id, option, q);
      BumpedTotal(a[..n], b[..n], id, option, q);
      BumpedTotalStep(a, b, id, option, q);
    }
  }

  lemma BumpedTotalStep(a: seq<CartItem>, b: seq<CartItem>, id: string, option: Option<ProductOption>, q: int)
    requires |a| == |b| > 0
    requires b[|a| - 1] == Bump(a[|a| - 1], id, option, q)
    requires Total(b[..|a| - 1]) == Total(a[..|a| - 1]) + Times(MatchedPrice(a[..|a| - 1], id, option), q)
    ensures Total(b) == Total(a) + Times(MatchedPrice(a, id, option), q)
  {
    var n := |a| - 1;
    var x := a[n];
    var m := MatchedPrice(a[..n], id, option);
    var inc := if AddMatches(x, id, option) then NumericPrice(x.price) else 0.0;
    assert LineTotal(b[n]) == LineTotal(x) + Times(inc, q) by {
      if AddMatches(x, id, option) {
        TimesSplitCount(inc, x.quantity, q);
      } else {
        TimesIsProduct(0.0, q);
      }
    }
    assert MatchedPrice(a, id, option) == m + inc;
    TimesSplitPrice(m, inc, q);
  }

  lemma MulDistributes(q: int, c: int, d: int)
    ensures q * (c + d) == q * c + q * d
  {
  }

  lemma TimesSplitCount(price: real, k: int, q: int)
    ensures Times(price, k + q) == Times(price, k) + Times(price, q)
  {
    TimesIsProduct(price, k + q);
    TimesIsProduct(price, k);
    TimesIsProduct(price, q);
    var kr, qr := k as real, q as real;
    assert (k + q) as real == kr + qr;
    assert price * (kr + qr) == price * kr + price * qr;
  }

  lemma TimesSplitPrice(p1: real, p2: real, q: int)
    ensures Times(p1 + p2, q) == Times(p1, q) + Times(p2, q)
  {
    TimesIsProduct(p1 + p2, q);
    TimesIsProduct(p1, q);
    TimesIsProduct(p2, q);
  }

  lemma {:induction false} NoMatchCountsZero(cart: seq<CartItem>, id: string, option: Option<ProductOption>)
    ensures MatchCount(cart, id, option) == 0 <==> forall i :: 0 <= i < |cart| ==> !AddMatches(cart[i], id, option)
  {
    if cart != [] {
      var init := cart[..|cart| - 1];
      NoMatchCountsZero(init, id, option);
      assert forall i :: 0 <= i < |init| ==> init[i] == cart[i];
    }
  }

  /** An add grows the count by `q` for every line it matches, or by `q` for
      the one new line when it matches none. */
  lemma AddCount(cart: seq<CartItem>, product: Product, option: Option<ProductOption>, q: int)
    ensures MatchCount(cart, product.id, option) == 0 ==>
              Count(Add(cart, product, option, q)) == Count(cart) + q
    ensures MatchCount(cart, product.id, option) > 0 ==>
              Count(Add(cart, product, option, q)) == Count(cart) + q * MatchCount(cart, product.id, option)
  {
    NoMatchCountsZero(cart, product.id, option);
    if MatchCount(cart, product.id, option) > 0 {
      var r := Add(cart, product, option, q);
      BumpedCount(cart, r, product.id, option, q);
    } else {
      AppendCount(cart, NewItem(product, option, q));
    }
  }

  lemma AppendCount(cart: seq<CartItem>, item: CartItem)
    ensures Count(cart + [item]) == Count(cart) + item.quantity
  {
    assert (cart + [item])[..|cart|] == cart;
  }

  /** An add that appends raises the total by the new line's resolved price
      times `q`; one that merges raises it by `q` times the matched lines'
      stored prices, whatever the catalog now says. */
  lemma AddTotal(cart: seq<CartItem>, product: Product, option: Option<ProductOption>, q: int)
    ensures Total(Add(cart, product, option, q)) ==
            if MatchCount(cart, product.id, option) == 0
            then Total(cart) + Times(ResolvePrice(if option.Some? then option.value.price else product.price), q)
            else Total(cart) + Times(MatchedPrice(cart, product.id, option), q)
  {
    var r := Add(cart, product, option, q);
    NoMatchCountsZero(cart, product.id, option);
    if exists i :: 0 <= i < |cart| && AddMatches(cart[i], product.id, option) {
      BumpedTotal(cart, r, product.id, option, q);
    } else {
      var item := r[|cart|];
      assert r == cart + [item];
      TotalAppend(cart, [item]);
      assert Total([item]) == LineTotal(item) by { assert [item][..0] == []; }
    }
  }

  /** Adding the same product and option twice to a cart without it leaves one
      line holding both quantities, priced as the FIRST add resolved it, even
      when the second add sees a different catalog price. */
  lemma AddTwiceMerges(cart: seq<CartItem>, first: Product, second: Product,
                       option: Option<ProductOption>, q1: int, q2: int)
    requires forall i :: 0 <= i < |cart| ==> !AddMatches(cart[i], first.id, option)
    requires second.id == first.id
    ensures Add(Add(cart, first, option, q1), second, option, q2)
            == cart + [NewItem(first, option, q1 + q2)]
  {
    var once := Add(cart, first, option, q1);
    assert once == cart + [NewItem(first, option, q1)];
    assert AddMatches(once[|cart|], second.id, option);
    var twice := Add(once, second, option, q2);
    assert twice == cart + [NewItem(first, option, q1 + q2)];
  }

  /** Adding keeps the cart well formed when a positive quantity is added. */
  lemma AddKeepsWellFormed(cart: seq<CartItem>, product: Product, option: Option<ProductOption>, q: int)
    requires WellFormed(cart) && q >= 1
    ensures WellFormed(Add(cart, product, option, q))
  {
    if exists i :: 0 <= i < |cart| && AddMatches(cart[i], product.id, option) {
      var r := Add(cart, product, option, q);
      assert forall i :: 0 <= i < |cart| ==> KeyOf(r[i]) == KeyOf(cart[i]);
    } else {
      AppendKeepsWellFormed(cart, NewItem(product, option, q));
    }
  }

  /** Appending a line whose key is new keeps the cart well formed. */
  lemma AppendKeepsWellFormed(cart: seq<CartItem>, item: CartItem)
    requires WellFormed(cart) && item.quantity >= 1 && item.price.Amount?
    requires forall i :: 0 <= i < |cart| ==> KeyOf(cart[i]) != KeyOf(item)
    ensures WellFormed(cart + [item])
  {
    var r := cart + [item];
    forall i, j | 0 <= i < j < |r| ensures KeyOf(r[i]) != KeyOf(r[j]) {
      if j < |cart| {
        assert r[i] == cart[i] && r[j] == cart[j];
      }
    }
  }

  /** As written, an add without an option (the product card's button) grows
      every line of that product, so one click on a product already in the cart
      in two sizes raises the count by two. */
  lemma CardAddGrowsEverySize(cart: seq<CartItem>, product: Product)
    requires |cart| == 2 && cart[0].id == product.id && cart[1].id == product.id
    ensures Count(Add(cart, product, None, 1)) == Count(cart) + 2
  {
    AddCount(cart, product, None, 1);
    assert cart[..1][..0] == [];
    assert MatchCount(cart, product.id, None) == 2;
  }

  // ---------------------------------------------------------------- update

  /** Successive +/- clicks on one line. */
  function UpdateAll(cart: seq<CartItem>, id: string, optionLabel: Option<string>, deltas: seq<int>)
    : seq<CartItem>
    decreases |deltas|
  {
    if deltas == [] then cart
    else UpdateAll(Update(cart, id, optionLabel, deltas[0]), id, optionLabel, deltas[1..])
  }

  /** A quantity after a run of deltas, each step clamped to the floor of 1. */
  function ClampedSum(q: int, deltas: seq<int>): int
    decreases |deltas|
  {
    if deltas == [] then q else ClampedSum(Max(1, q + deltas[0]), deltas[1..])
  }

  function Sum(deltas: seq<int>): int
  {
    if deltas == [] then 0 else deltas[0] + Sum(deltas[1..])
  }

  /** After any run of updates, a matching line holds its quantity plus the
      deltas clamped at each step; every other line is untouched. */
  lemma {:induction false} UpdateAllAt(cart: seq<CartItem>, id: string, optionLabel: Option<string>,
                                       deltas: seq<int>, i: int)
    requires 0 <= i < |cart|
    ensures |UpdateAll(cart, id, optionLabel, deltas)| == |cart|
    ensures UpdateAll(cart, id, optionLabel, deltas)[i] ==
            cart[i].(quantity := if UpdateMatches(cart[i], id, optionLabel)
                                 then ClampedSum(cart[i].quantity, deltas)
                                 else cart[i].quantity)
    decreases |deltas|
  {
    if deltas != [] {
      UpdateAllAt(Update(cart, id, optionLabel, deltas[0]), id, optionLabel, deltas[1..], i);
    }
  }

  /** The clamped result is at least 1 once a click happened, and never below
      the unclamped sum. */
  lemma {:induction false} ClampedSumBounds(q: int, deltas: seq<int>)
    ensures ClampedSum(q, deltas) >= q + Sum(deltas)
    ensures deltas != [] ==> ClampedSum(q, deltas) >= 1
    decreases |deltas|
  {
    if deltas != [] {
      ClampedSumBounds(Max(1, q + deltas[0]), deltas[1..]);
      if deltas[1..] == [] {
        assert ClampedSum(Max(1, q + deltas[0]), deltas[1..]) == Max(1, q + deltas[0]);
      }
    }
  }

  /** On lines that are already at least 1, the clamp never bites for non-negative
      deltas: the quantity is exactly the old one plus their sum. */
  lemma {:induction false} ClampedSumOfIncrements(q: int, deltas: seq<int>)
    requires q >= 1 && forall k :: 0 <= k < |deltas| ==> deltas[k] >= 0
    ensures ClampedSum(q, deltas) == q + Sum(deltas)
    decreases |deltas|
  {
    if deltas != [] {
      assert forall k :: 0 <= k < |deltas[1..]| ==> deltas[1..][k] == deltas[k + 1];
      ClampedSumOfIncrements(q + deltas[0], deltas[1..]);
    }
  }

  /** Updating keeps the cart well formed: keys and prices are untouched and the
      floor of 1 holds for every line. */
  lemma UpdateKeepsWellFormed(cart: seq<CartItem>, id: string, optionLabel: Option<string>, delta: int)
    requires WellFormed(cart)
    ensures WellFormed(Update(cart, id, optionLabel, delta))
  {
    var r := Update(cart, id, optionLabel, delta);
    assert forall i :: 0 <= i < |cart| ==> KeyOf(r[i]) == KeyOf(cart[i]);
  }

  // ---------------------------------------------------------------- remove

  /** Removing twice is removing once. */
  lemma RemoveIdempotent(cart: seq<CartItem>, id: string, optionLabel: Option<string>)
    ensures Remove(Remove(cart, id, optionLabel), id, optionLabel) == Remove(cart, id, optionLabel)
  {
    FilterIdempotent(cart, (item: CartItem) => !RemoveMatches(item, id, optionLabel));
  }

  /** Two removals, one after the other, leave lines of the original cart in
      their original order. */
  lemma RemoveTwiceKeepsOrder(cart: seq<CartItem>, id1: string, label1: Option<string>,
                              id2: string, label2: Option<string>)
    ensures IsSubsequence(Remove(Remove(cart, id1, label1), id2, label2), cart)
  {
    var once := Remove(cart, id1, label1);
    SubsequenceTransitive(Remove(once, id2, label2), once, cart);
  }

  /** The order of two removals does not matter. */
  lemma RemovesCommute(cart: seq<CartItem>, id1: string, label1: Option<string>,
                       id2: string, label2: Option<string>)
    ensures Remove(Remove(cart, id1, label1), id2, label2) == Remove(Remove(cart, id2, label2), id1, label1)
  {
    FilterCommute(cart, (item: CartItem) => !RemoveMatches(item, id1, label1),
                  (item: CartItem) => !RemoveMatches(item, id2, label2));
  }

  /** The lines a removal drops. */
  function Removed(cart: seq<CartItem>, id: string, optionLabel: Option<string>): seq<CartItem>
  {
    Filter(cart, (item: CartItem) => RemoveMatches(item, id, optionLabel))
  }

  /** A removal splits the total between the lines kept and the lines dropped. */
  lemma {:induction false} RemoveSplitsTotal(cart: seq<CartItem>, id: string, optionLabel: Option<string>)
    ensures Total(cart) == Total(Remove(cart, id, optionLabel)) + Total(Removed(cart, id, optionLabel))
    ensures Count(cart) == Count(Remove(cart, id, optionLabel)) + Count(Removed(cart, id, optionLabel))
  {
    if cart != [] {
      var x, rest := cart[0], cart[1..];
      RemoveSplitsTotal(rest, id, optionLabel);
      assert cart == [x] + rest;
      TotalAppend([x], rest);
      CountAppend([x], rest);
      var kept, dropped := Remove(rest, id, optionLabel), Removed(rest, id, optionLabel);
      if RemoveMatches(x, id, optionLabel) {
        assert Removed(cart, id, optionLabel) == [x] + dropped;
        TotalAppend([x], dropped);
        CountAppend([x], dropped);
      } else {
        assert Remove(cart, id, optionLabel) == [x] + kept;
        TotalAppend([x], kept);
        CountAppend([x], kept);
      }
    }
  }

  /** Filtering keeps keys unique. */
  lemma {:induction false} FilterKeepsKeysUnique(cart: seq<CartItem>, p: CartItem -> bool)
    requires UniqueKeys(cart)
    ensures UniqueKeys(Filter(cart, p))
  {
    if cart != [] {
      var rest := cart[1..];
      FilterKeepsKeysUnique(rest, p);
      var fr := Filter(rest, p);
      if p(cart[0]) {
        forall j | 0 <= j < |fr| ensures KeyOf(cart[0]) != KeyOf(fr[j]) {
          var k :| 0 <= k < |rest| && rest[k] == fr[j];
          assert cart[k + 1] == fr[j];
        }
        assert Filter(cart, p) == [cart[0]] + fr;
      }
    }
  }

  /** Removing keeps the cart well formed. */
  lemma RemoveKeepsWellFormed(cart: seq<CartItem>, id: string, optionLabel: Option<string>)
    requires WellFormed(cart)
    ensures WellFormed(Remove(cart, id, optionLabel))
  {
    FilterKeepsKeysUnique(cart, (item: CartItem) => !RemoveMatches(item, id, optionLabel));
  }
}
