/**
 * Short runs of marketplace operations and what they must produce, stated
 * over the steps of module Shop, plus one caller of the class itself.
 */
module Scenarios {
  import opened Wrappers
  import opened Queues
  import opened Carts
  import opened Shop
  import Market

  /** Capacity 2 and three back-to-back publishes by one producer: the third is rejected and the queue holds two units. */
  lemma CapacityScenario<P>(a: P, b: P, c: P)
    ensures var (s1, id) := RegisterProducer(Init<P>(2));
            var (s2, first) := Publish(s1, id, a);
            var (s3, second) := Publish(s2, id, b);
            var (s4, third) := Publish(s3, id, c);
            first && second && !third && s4.producers[id] == [a, b]
  {
  }

  /** The same run through the class. */
  method CapacityRun<P(==)>(a: P, b: P, c: P) returns (first: bool, second: bool, third: bool, queue: seq<P>)
    ensures first && second && !third && queue == [a, b]
  {
    var m := new Market.Marketplace<P>(2);
    var id := m.RegisterProducer();
    first := m.Publish(id, a);
    second := m.Publish(id, b);
    third := m.Publish(id, c);
    queue := m.producers[id];
  }

  /**
   * One `add_to_cart` that finds the product at the head of producer `i`'s
   * queue, no earlier producer holding it.
   */
  lemma AddStep<P>(s: State<P>, c: nat, p: P, i: nat, rest: seq<P>)
    requires Valid(s) && c < |s.carts| && i < |s.producers| && s.producers[i] == [p] + rest
    requires forall j :: 0 <= j < i ==> p !in s.producers[j]
    ensures var (t, ok) := AddToCart(s, c, p);
            && ok && Valid(t)
            && t.producers == s.producers[i := rest]
            && Reservations(t.carts[c], p) == Reservations(s.carts[c], p) + [i]
  {
    FirstHolderIs(s.producers, p, i);
    assert IndexOf(s.producers[i], p) == 0;
    AddToCartKeepsValid(s, c, p);
    var t := AddToCart(s, c, p).0;
    assert t.producers[i] == rest;
  }

  /**
   * After two units of `p`, from producers 0 and 1, and one unit of `q`,
   * from producer 1, a cart that was empty orders both products, in the
   * order they were first added, with their counts.
   */
  lemma OrderScenario<P>(s0: State<P>, p: P, q: P)
    requires p != q && Valid(s0) && |s0.producers| == 2 && s0.producers[0] == [p] && s0.producers[1] == [p, q]
    requires |s0.carts| == 1 && s0.carts[0] == []
    ensures Order(s0.carts[0]) == []
    ensures var r1 := AddToCart(s0, 0, p);
            var r2 := AddToCart(r1.0, 0, p);
            var r3 := AddToCart(r2.0, 0, q);
            r1.1 && r2.1 && r3.1 && Order(r3.0.carts[0]) == [(p, 2), (q, 1)]
  {
    TwiceFromTwo(s0, p, q);
    ThirdAdd(AddToCart(AddToCart(s0, 0, p).0, 0, p).0, p, q);
  }

  /** The last add of `OrderScenario`: one unit of `q` from producer 1, and the order that results. */
  lemma ThirdAdd<P>(s2: State<P>, p: P, q: P)
    requires p != q && Valid(s2) && |s2.producers| == 2 && s2.producers[0] == [] && s2.producers[1] == [q]
    requires |s2.carts| == 1 && Keys(s2.carts[0]) == [p] && Reservations(s2.carts[0], p) == [0, 1]
    ensures var r := AddToCart(s2, 0, q);
            r.1 && Order(r.0.carts[0]) == [(p, 2), (q, 1)]
  {
    FirstHolderIs(s2.producers, q, 1);
    assert AddToCart(s2, 0, q).0.carts[0] == Reserve(Touch(s2.carts[0], q), q, 1);
    OrderAfterThird(s2.carts[0], p, q);
  }

  /** The cart part of `ThirdAdd`. */
  lemma OrderAfterThird<P>(cart: Cart<P>, p: P, q: P)
    requires p != q && DistinctKeys(cart) && Keys(cart) == [p] && Reservations(cart, p) == [0, 1]
    ensures Order(Reserve(Touch(cart, q), q, 1)) == [(p, 2), (q, 1)]
  {
    var r := Reserve(Touch(cart, q), q, 1);
    assert q !in Keys(cart);
    assert Keys(r) == [p] + [q];
    assert Reservations(r, p) == Reservations(cart, p) by {
      assert p in Keys(Touch(cart, q)) && p != q;
    }
    OrderOfTwo(r, p, q);
  }

  /** The first two adds of `OrderScenario`: one unit of `p` from each producer. */
  lemma TwiceFromTwo<P>(s0: State<P>, p: P, q: P)
    requires Valid(s0) && |s0.producers| == 2 && s0.producers[0] == [p] && s0.producers[1] == [p, q]
    requires |s0.carts| == 1 && s0.carts[0] == []
    ensures var r1 := AddToCart(s0, 0, p);
            var r2 := AddToCart(r1.0, 0, p);
            && r1.1 && r2.1 && Valid(r2.0) && |r2.0.carts| == 1
            && |r2.0.producers| == 2 && r2.0.producers[0] == [] && r2.0.producers[1] == [q]
            && Keys(r2.0.carts[0]) == [p] && Reservations(r2.0.carts[0], p) == [0, 1]
  {
    assert Keys<P>([]) == [];
    AddStep(s0, 0, p, 0, []);
    SecondAdd(AddToCart(s0, 0, p).0, p, q);
  }

  /** The second add of `OrderScenario`: producer 0 is empty, so the unit comes from producer 1. */
  lemma SecondAdd<P>(s1: State<P>, p: P, q: P)
    requires Valid(s1) && |s1.producers| == 2 && s1.producers[0] == [] && s1.producers[1] == [p, q]
    requires |s1.carts| == 1 && Keys(s1.carts[0]) == [p] && Reservations(s1.carts[0], p) == [0]
    ensures var r := AddToCart(s1, 0, p);
            && r.1 && Valid(r.0) && |r.0.carts| == 1
            && |r.0.producers| == 2 && r.0.producers[0] == [] && r.0.producers[1] == [q]
            && Keys(r.0.carts[0]) == [p] && Reservations(r.0.carts[0], p) == [0, 1]
  {
    AddStep(s1, 0, p, 1, [q]);
  }

  lemma OrderOfTwo<P>(cart: Cart<P>, p: P, q: P)
    requires DistinctKeys(cart) && Keys(cart) == [p, q]
    requires |Reservations(cart, p)| == 2 && |Reservations(cart, q)| == 1
    ensures Order(cart) == [(p, 2), (q, 1)]
  {
    assert Order(cart)[0] == (p, 2) && Order(cart)[1] == (q, 1);
  }

  /**
   * Reservations of one product leave a cart oldest first: with one unit of
   * `p` reserved from producer 0 and then one from producer 1, the first
   * removal returns the unit to producer 0 and the second to producer 1.
   */
  lemma FifoScenario<P>(s0: State<P>, p: P)
    requires Valid(s0) && |s0.producers| == 2 && s0.producers[0] == [] && s0.producers[1] == []
    requires |s0.carts| == 1 && Reservations(s0.carts[0], p) == [0, 1]
    ensures var s1 := RemoveFromCart(s0, 0, p);
            && s1.producers == [[p], []]
            && Reservations(s1.carts[0], p) == [1]
            && RemoveFromCart(s1, 0, p).producers == [[p], [p]]
  {
    RemoveFromCartKeepsValid(s0, 0, p);
    var s1 := RemoveFromCart(s0, 0, p);
    assert |s1.producers| == 2 && s1.producers[0] == [p] && s1.producers[1] == [];
  }

  /**
   * Two carts ask for the only unit of `p`: the first gets it, the second
   * is told it is not available and orders `p` zero times.
   */
  lemma LastUnitScenario<P>(s0: State<P>, p: P)
    requires Valid(s0) && |s0.producers| == 1 && s0.producers[0] == [p]
    requires |s0.carts| == 2 && s0.carts[0] == [] && s0.carts[1] == []
    ensures var (s1, first) := AddToCart(s0, 0, p);
            var (s2, second) := AddToCart(s1, 1, p);
            first && !second && s2.producers == [[]] && Order(s2.carts[1]) == [(p, 0)]
  {
    AddStep(s0, 0, p, 0, []);
    var s1 := AddToCart(s0, 0, p).0;
    var s2 := AddToCart(s1, 1, p).0;
    assert s2.carts[1] == Touch([], p);
    OrderTouch([], p);
  }

  /**
   * Returning a unit to stock is not checked against the capacity: with
   * capacity 1, a producer that publishes again after its unit was reserved
   * ends up holding two units once the reservation is removed.
   */
  lemma OvershootScenario<P>(s0: State<P>, a: P, b: P)
    requires Valid(s0) && s0.qSize == 1 && |s0.producers| == 1 && s0.producers[0] == [a]
    requires |s0.carts| == 1 && s0.carts[0] == []
    ensures var (s1, added) := AddToCart(s0, 0, a);
            var (s2, published) := Publish(s1, 0, b);
            && added && published
            && Reservations(s2.carts[0], a) == [0]
            && var s3 := RemoveFromCart(s2, 0, a);
               s3.producers[0] == [b, a] && |s3.producers[0]| > s3.qSize
  {
    assert Keys<P>([]) == [];
    AddStep(s0, 0, a, 0, []);
  }

  /**
   * `add_to_cart` followed by `remove_from_cart` of the same product. The
   * add takes a unit from the first holder `i` and records `i` at the end of
   * the cart's list for the product; the remove pops the head of that list,
   * so the unit goes to `j`, the producer of the oldest reservation, which is
   * `i` only when the list was empty or already started with `i`. The cart's
   * list has rotated by one, its order is as after a failed add, and no unit
   * is created or lost. When the cart held no reservation of the product,
   * the unit goes back to the tail of the queue it came from: that queue has
   * the same units as before, and the same sequence exactly when every unit
   * from its first `p` onwards is `p`.
   */
  lemma AddThenRemove<P>(s: State<P>, c: nat, p: P)
    requires Valid(s) && c < |s.carts|
    ensures var r := AddToCart(s, c, p);
            r.1 ==>
              && Valid(r.0) && Reservations(r.0.carts[c], p) != []
              && var u := RemoveFromCart(r.0, c, p);
              var i := FirstHolder(s.producers, p).value;
              var q := s.producers[i];
              var taken := s.producers[i := RemoveFirst(q, p)];
              var held := Reservations(s.carts[c], p);
              var j := (held + [i])[0];
              && (j == i <==> held == [] || held[0] == i)
              && j < |s.producers|
              && u.producers == taken[j := taken[j] + [p]]
              && Reservations(u.carts[c], p) == (held + [i])[1..]
              && (held == [] ==>
                   && u.producers == s.producers[i := RemoveFirst(q, p) + [p]]
                   && multiset(u.producers[i]) == multiset(q)
                   && (u.producers[i] == q <==> forall k :: IndexOf(q, p) <= k < |q| ==> q[k] == p))
              && Order(u.carts[c]) == Order(Touch(s.carts[c], p))
              && Units(u) == Units(s)
  {
    if AddToCart(s, c, p).1 {
      var i := FirstHolder(s.producers, p).value;
      AddThenRemoveQueues(s, c, p, i);
      AddThenRemoveFresh(s, c, p, i);
      AddThenRemoveCart(s, c, p, i);
      AddThenRemoveConserves(s, c, p, i);
    }
  }

  /** The queue part of `AddThenRemove`: the unit goes to the producer at the head of the cart's list. */
  lemma AddThenRemoveQueues<P>(s: State<P>, c: nat, p: P, i: nat)
    requires Valid(s) && c < |s.carts|
    requires FirstHolder(s.producers, p) == Some(i)
    ensures var t := AddToCart(s, c, p).0;
            var taken := s.producers[i := RemoveFirst(s.producers[i], p)];
            var held := Reservations(s.carts[c], p);
            var j := (held + [i])[0];
            && Valid(t) && Reservations(t.carts[c], p) == held + [i]
            && (j == i <==> held == [] || held[0] == i)
            && j < |s.producers|
            && RemoveFromCart(t, c, p).producers == taken[j := taken[j] + [p]]
            && Reservations(RemoveFromCart(t, c, p).carts[c], p) == (held + [i])[1..]
  {
    AddToCartKeepsValid(s, c, p);
    var t := AddToCart(s, c, p).0;
    var taken := s.producers[i := RemoveFirst(s.producers[i], p)];
    assert t.producers == taken;
    var j := Reservations(t.carts[c], p)[0];
    var u := RemoveFromCart(t, c, p);
    assert u.producers == taken[j := taken[j] + [p]];
  }

  /** `AddThenRemove` on a cart holding no `p`: the unit goes back to the queue it came from. */
  lemma AddThenRemoveFresh<P>(s: State<P>, c: nat, p: P, i: nat)
    requires Valid(s) && c < |s.carts|
    requires FirstHolder(s.producers, p) == Some(i)
    ensures var t := AddToCart(s, c, p).0;
            var q := s.producers[i];
            Reservations(s.carts[c], p) == [] ==>
              && Valid(t) && Reservations(t.carts[c], p) != []
              && var u := RemoveFromCart(t, c, p);
              && u.producers == s.producers[i := RemoveFirst(q, p) + [p]]
              && multiset(u.producers[i]) == multiset(q)
              && (u.producers[i] == q <==> forall k :: IndexOf(q, p) <= k < |q| ==> q[k] == p)
  {
    if Reservations(s.carts[c], p) == [] {
      AddThenRemoveQueues(s, c, p, i);
      var q := s.producers[i];
      var taken := s.producers[i := RemoveFirst(q, p)];
      assert taken[i := taken[i] + [p]] == s.producers[i := RemoveFirst(q, p) + [p]];
      RequeueRestores(q, p);
    }
  }

  /** The unit-count part of `AddThenRemove`. */
  lemma AddThenRemoveConserves<P>(s: State<P>, c: nat, p: P, i: nat)
    requires Valid(s) && c < |s.carts|
    requires FirstHolder(s.producers, p) == Some(i)
    ensures var t := AddToCart(s, c, p).0;
            && Valid(t) && Reservations(t.carts[c], p) != []
            && Units(RemoveFromCart(t, c, p)) == Units(s)
  {
    AddThenRemoveQueues(s, c, p, i);
    AddToCartConserves(s, c, p);
    RemoveFromCartConserves(AddToCart(s, c, p).0, c, p);
  }

  /**
   * A cart already holding a unit of `p` from producer 0 takes another from
   * producer 1 and then removes `p` once: the removed unit is the older one,
   * so it goes to producer 0, not to producer 1 it was just taken from.
   */
  lemma ReturnToOldestScenario<P>(s0: State<P>, p: P)
    requires Valid(s0) && |s0.producers| == 2 && s0.producers[0] == [] && s0.producers[1] == [p]
    requires |s0.carts| == 1 && Reservations(s0.carts[0], p) == [0]
    ensures var (s1, ok) := AddToCart(s0, 0, p);
            && ok && Reservations(s1.carts[0], p) == [0, 1]
            && var s2 := RemoveFromCart(s1, 0, p);
               s2.producers == [[p], []] && Reservations(s2.carts[0], p) == [1]
  {
    AddStep(s0, 0, p, 1, []);
    var s1 := AddToCart(s0, 0, p).0;
    var s2 := RemoveFromCart(s1, 0, p);
    assert |s2.producers| == 2 && s2.producers[0] == [p] && s2.producers[1] == [];
  }

  /** The cart part of `AddThenRemove`. */
  lemma AddThenRemoveCart<P>(s: State<P>, c: nat, p: P, i: nat)
    requires Valid(s) && c < |s.carts|
    requires FirstHolder(s.producers, p) == Some(i)
    ensures var t := AddToCart(s, c, p).0;
            && Valid(t) && Reservations(t.carts[c], p) != []
            && Order(RemoveFromCart(t, c, p).carts[c]) == Order(Touch(s.carts[c], p))
  {
    AddToCartKeepsValid(s, c, p);
    var t := AddToCart(s, c, p).0;
    assert t.carts[c] == Reserve(Touch(s.carts[c], p), p, i);
    WellFormedTouch(s.carts[c], p, |s.producers|);
    OrderReserveRelease(Touch(s.carts[c], p), p, i);
  }

  /** Reserving a unit of `p` and releasing the oldest reservation of `p` leaves the order as it was. */
  lemma OrderReserveRelease<P>(cart: Cart<P>, p: P, id: nat)
    requires DistinctKeys(cart) && p in Keys(cart)
    ensures Order(Release(Reserve(cart, p, id), p)) == Order(cart)
  {
    var r := Release(Reserve(cart, p, id), p);
    assert |Reservations(r, p)| == |Reservations(cart, p)|;
    OrderDetermined(r, cart);
  }
}
