/**
 * The consumer side of the marketplace. A cart is the Python dict that maps a
 * product to the list of producers that supplied one unit of it each; it is
 * kept as an association list so that the dict's first-insertion order, which
 * `place_order` exposes, is part of the value.
 */
module Carts {
  import opened Wrappers
  import opened Tally
  import opened Queues

  /** Entries in first-insertion order; each one names producers by registration number, oldest first. */
  type Cart<P> = seq<(P, seq<nat>)>

  function Keys<P>(cart: Cart<P>): seq<P>
  {
    seq(|cart|, k requires 0 <= k < |cart| => cart[k].0)
  }

  /** A dict holds each key once. */
  predicate DistinctKeys<P(==)>(cart: Cart<P>)
  {
    forall j, k :: 0 <= j < k < |cart| ==> cart[j].0 != cart[k].0
  }

  /** A dict whose reservations all name one of the first `n` producers. */
  predicate WellFormed<P(==)>(cart: Cart<P>, n: nat)
  {
    && DistinctKeys(cart)
    && forall k, j :: 0 <= k < |cart| && 0 <= j < |cart[k].1| ==> cart[k].1[j] < n
  }

  /** Every cart of a registry is well formed for `n` producers. */
  predicate AllWellFormed<P(==)>(carts: seq<Cart<P>>, n: nat)
  {
    forall c :: 0 <= c < |carts| ==> WellFormed(carts[c], n)
  }

  /** Replacing one cart by a well-formed one keeps the registry well formed. */
  lemma AllWellFormedUpdate<P>(carts: seq<Cart<P>>, n: nat, c: nat, cart: Cart<P>)
    requires AllWellFormed(carts, n) && c < |carts| && WellFormed(cart, n)
    ensures AllWellFormed(carts[c := cart], n)
  {
  }

  /** Registering producers or adding an empty cart keeps the registry well formed. */
  lemma AllWellFormedGrow<P>(carts: seq<Cart<P>>, n: nat, m: nat)
    requires AllWellFormed(carts, n) && n <= m
    ensures AllWellFormed(carts, m) && AllWellFormed(carts + [[]], m)
  {
  }

  /** Where the dict keeps the entry of `p`, if it has one. */
  function Find<P(==)>(cart: Cart<P>, p: P): (r: Option<nat>)
    ensures r.Some? ==> r.value < |cart| && cart[r.value].0 == p
    ensures r.None? <==> p !in Keys(cart)
  {
    if p in Keys(cart) then Some(IndexOf(Keys(cart), p)) else None
  }

  /** With distinct keys, looking up the key of entry `k` finds entry `k`. */
  lemma FindDistinct<P>(cart: Cart<P>, k: nat)
    requires DistinctKeys(cart) && k < |cart|
    ensures Find(cart, cart[k].0) == Some(k)
  {
    assert Keys(cart)[k] == cart[k].0;
  }

  /** `cart[p]` when present, and no producers at all otherwise. */
  function Reservations<P(==)>(cart: Cart<P>, p: P): seq<nat>
  {
    match Find(cart, p)
    case Some(k) => cart[k].1
    case None => []
  }

  /**
   * `if product not in cart: cart[product] = []`: the cart gains an empty
   * entry for `p`, at the end, unless it has one; no reservation changes.
   */
  function Touch<P(==)>(cart: Cart<P>, p: P): (r: Cart<P>)
    ensures p in Keys(r)
    ensures Keys(r) == if p in Keys(cart) then Keys(cart) else Keys(cart) + [p]
    ensures forall x :: x in Keys(r) ==> Reservations(r, x) == Reservations(cart, x)
    ensures DistinctKeys(cart) ==> DistinctKeys(r)
  {
    if p in Keys(cart) then cart
    else
      AppendEmptyEntry(cart, p);
      cart + [(p, [])]
  }

  lemma AppendEmptyEntry<P>(cart: Cart<P>, p: P)
    requires p !in Keys(cart)
    ensures Keys(cart + [(p, [])]) == Keys(cart) + [p]
    ensures forall x :: Reservations(cart + [(p, [])], x) == Reservations(cart, x)
    ensures DistinctKeys(cart) ==> DistinctKeys(cart + [(p, [])])
  {
    var r := cart + [(p, [])];
    assert forall k :: 0 <= k < |cart| ==> Keys(cart)[k] == cart[k].0;
    assert Keys(r) == Keys(cart) + [p];
    forall x ensures Reservations(r, x) == Reservations(cart, x) {
      if x in Keys(cart) {
        IndexOfAppend(Keys(cart), [p], x);
      } else if x == p {
        assert Keys(r)[|cart|] == p;
      }
    }
  }

  /** `cart[p].append(id)`: one more reservation of `p`, from producer `id`, at the end of its list. */
  function Reserve<P(==)>(cart: Cart<P>, p: P, id: nat): (r: Cart<P>)
    requires p in Keys(cart)
    ensures Keys(r) == Keys(cart)
    ensures Reservations(r, p) == Reservations(cart, p) + [id]
    ensures forall x :: x in Keys(cart) && x != p ==> Reservations(r, x) == Reservations(cart, x)
    ensures DistinctKeys(cart) ==> DistinctKeys(r)
  {
    var k := Find(cart, p).value;
    var r := cart[k := (p, cart[k].1 + [id])];
    assert Keys(r) == Keys(cart);
    r
  }

  /** `cart[p].pop(0)`: the oldest reservation of `p` is dropped, the others keep their order. */
  function Release<P(==)>(cart: Cart<P>, p: P): (r: Cart<P>)
    requires Reservations(cart, p) != []
    ensures Keys(r) == Keys(cart)
    ensures Reservations(r, p) == Reservations(cart, p)[1..]
    ensures forall x :: x in Keys(cart) && x != p ==> Reservations(r, x) == Reservations(cart, x)
    ensures DistinctKeys(cart) ==> DistinctKeys(r)
  {
    var k := Find(cart, p).value;
    var r := cart[k := (p, cart[k].1[1..])];
    assert Keys(r) == Keys(cart);
    r
  }

  lemma WellFormedTouch<P>(cart: Cart<P>, p: P, n: nat)
    requires WellFormed(cart, n)
    ensures WellFormed(Touch(cart, p), n)
  {
  }

  lemma WellFormedReserve<P>(cart: Cart<P>, p: P, id: nat, n: nat)
    requires WellFormed(cart, n) && p in Keys(cart) && id < n
    ensures WellFormed(Reserve(cart, p, id), n)
  {
    var k := Find(cart, p).value;
    var r := Reserve(cart, p, id);
    assert r == cart[k := (p, cart[k].1 + [id])];
  }

  lemma WellFormedRelease<P>(cart: Cart<P>, p: P, n: nat)
    requires WellFormed(cart, n) && Reservations(cart, p) != []
    ensures WellFormed(Release(cart, p), n)
    ensures Reservations(cart, p)[0] < n
  {
    var k := Find(cart, p).value;
    var r := Release(cart, p);
    assert r == cart[k := (p, cart[k].1[1..])];
    assert cart[k].1[0] < n;
  }

  /**
   * `place_order`: one (product, number of reserved units) pair per entry,
   * in first-insertion order.
   */
  function Order<P(==)>(cart: Cart<P>): (r: seq<(P, nat)>)
    ensures |r| == |cart|
    ensures forall k :: 0 <= k < |r| ==> r[k].0 == Keys(cart)[k]
    ensures DistinctKeys(cart) ==> forall k :: 0 <= k < |r| ==> r[k].1 == |Reservations(cart, r[k].0)|
  {
    EntryCounts(cart);
    seq(|cart|, k requires 0 <= k < |cart| => (cart[k].0, |cart[k].1|))
  }

  lemma EntryCounts<P>(cart: Cart<P>)
    ensures DistinctKeys(cart) ==> forall k :: 0 <= k < |cart| ==> cart[k].1 == Reservations(cart, cart[k].0)
  {
    if DistinctKeys(cart) {
      forall k | 0 <= k < |cart| ensures cart[k].1 == Reservations(cart, cart[k].0) {
        FindDistinct(cart, k);
      }
    }
  }

  /** An order depends only on the keys and on how many reservations each key has. */
  lemma OrderDetermined<P>(a: Cart<P>, b: Cart<P>)
    requires DistinctKeys(a) && DistinctKeys(b) && Keys(a) == Keys(b)
    requires forall x :: x in Keys(a) ==> |Reservations(a, x)| == |Reservations(b, x)|
    ensures Order(a) == Order(b)
  {
    assert |a| == |Keys(a)| == |Keys(b)| == |b|;
    forall k | 0 <= k < |a| ensures Order(a)[k] == Order(b)[k] {
      assert Keys(a)[k] in Keys(a);
    }
  }

  /** A failed `add_to_cart` shows up in the order as its product with count 0, unless the product was already there. */
  lemma OrderTouch<P>(cart: Cart<P>, p: P)
    ensures Order(Touch(cart, p)) == if p in Keys(cart) then Order(cart) else Order(cart) + [(p, 0)]
  {
    if p !in Keys(cart) {
      var r := Touch(cart, p);
      assert r == cart + [(p, [])];
      assert Order(r)[|cart|] == (p, 0);
      assert Order(r)[..|cart|] == Order(cart);
    }
  }

  function EntryUnits<P>(e: (P, seq<nat>)): multiset<P>
  {
    multiset{}[e.0 := |e.1|]
  }

  /** The units a cart holds: each reservation stands for one unit of its product. */
  function Held<P>(cart: Cart<P>): multiset<P>
  {
    Sum(cart, EntryUnits)
  }

  /** The units all carts hold together. */
  function HeldAll<P>(carts: seq<Cart<P>>): multiset<P>
  {
    Sum(carts, Held)
  }

  /** With distinct keys, a cart holds exactly as many units of `x` as it records reservations of `x`. */
  lemma {:induction false} HeldCount<P>(cart: Cart<P>, x: P)
    requires DistinctKeys(cart)
    ensures Held(cart)[x] == |Reservations(cart, x)|
  {
    if cart != [] {
      var tail := cart[1..];
      assert DistinctKeys(tail);
      assert Keys(cart) == [cart[0].0] + Keys(tail);
      HeldCount(tail, x);
      if x == cart[0].0 {
        assert x !in Keys(tail);
      } else if x in Keys(tail) {
        assert Keys(cart)[1..] == Keys(tail);
      }
    }
  }

  /** An empty entry holds nothing. */
  lemma HeldTouch<P>(cart: Cart<P>, p: P)
    ensures Held(Touch(cart, p)) == Held(cart)
  {
    if p !in Keys(cart) {
      SumAppend(cart, EntryUnits, (p, []));
    }
  }

  /** A reservation adds one unit of its product to the cart. */
  lemma HeldReserve<P>(cart: Cart<P>, p: P, id: nat)
    requires p in Keys(cart)
    ensures Held(Reserve(cart, p, id)) == Held(cart) + multiset{p}
  {
    var k := Find(cart, p).value;
    var e := (p, cart[k].1 + [id]);
    SumUpdate(cart, EntryUnits, k, e);
    assert EntryUnits(e) == EntryUnits(cart[k]) + multiset{p};
    Cancel(Held(Reserve(cart, p, id)), Held(cart) + multiset{p}, EntryUnits(cart[k]));
  }

  /** Giving up a reservation takes one unit of its product out of the cart. */
  lemma HeldRelease<P>(cart: Cart<P>, p: P)
    requires Reservations(cart, p) != []
    ensures Held(Release(cart, p)) + multiset{p} == Held(cart)
  {
    var k := Find(cart, p).value;
    var e := (p, cart[k].1[1..]);
    SumUpdate(cart, EntryUnits, k, e);
    assert EntryUnits(cart[k]) == EntryUnits(e) + multiset{p};
    Cancel(Held(Release(cart, p)) + multiset{p}, Held(cart), EntryUnits(e));
  }
}
