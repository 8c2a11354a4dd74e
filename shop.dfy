/**
 * The marketplace as a state machine over values: one function per
 * operation, taking the state before the call to the state after it and the
 * call's result. The class in module Market implements these steps in
 * place; the lemmas here and in module Scenarios are about the steps.
 */
module Shop {
  import opened Wrappers
  import opened Tally
  import opened Queues
  import opened Carts
  import opened ProducerIds

  /**
   * The capacity every queue is checked against, one stock queue per
   * producer (indexed by registration number, oldest unit first) and the
   * carts (indexed by cart id).
   */
  datatype State<P> = State(qSize: int, producers: seq<seq<P>>, carts: seq<Cart<P>>)

  /** Carts are dicts whose reservations all name registered producers. */
  predicate Valid<P(==)>(s: State<P>)
  {
    AllWellFormed(s.carts, |s.producers|)
  }

  /** Every unit in the marketplace: still offered by a producer, or reserved in a cart. */
  function Units<P>(s: State<P>): multiset<P>
  {
    Stock(s.producers) + HeldAll(s.carts)
  }

  /** `__init__`: no producers, no carts, and the given capacity. */
  function Init<P(==)>(queueSizePerProducer: int): (s: State<P>)
    ensures Valid(s) && Units(s) == multiset{}
    ensures s.qSize == queueSizePerProducer && |s.producers| == 0 && |s.carts| == 0
  {
    State(queueSizePerProducer, [], [])
  }

  /**
   * `register_producer`: the id is the number of producers registered
   * before, its queue starts empty, and nothing else changes.
   */
  function RegisterProducer<P(==)>(s: State<P>): (r: (State<P>, nat))
    ensures r.1 == |s.producers|
    ensures |r.0.producers| == r.1 + 1 && r.0.producers[..r.1] == s.producers && r.0.producers[r.1] == []
    ensures r.0.carts == s.carts && r.0.qSize == s.qSize
  {
    (s.(producers := s.producers + [[]]), |s.producers|)
  }

  /** The name handed out by `register_producer` is not the name of any producer registered before. */
  lemma RegisterProducerFreshName<P>(s: State<P>)
    ensures var id := RegisterProducer(s).1;
            forall j :: 0 <= j < id ==> ProducerName(j) != ProducerName(id)
  {
    var id := |s.producers|;
    forall j | 0 <= j < id ensures ProducerName(j) != ProducerName(id) {
      if ProducerName(j) == ProducerName(id) {
        ProducerNameInjective(j, id);
      }
    }
  }

  lemma RegisterProducerConserves<P>(s: State<P>)
    ensures Units(RegisterProducer(s).0) == Units(s)
  {
    StockRegister(s.producers);
  }

  lemma RegisterProducerKeepsValid<P>(s: State<P>)
    requires Valid(s)
    ensures Valid(RegisterProducer(s).0)
  {
    AllWellFormedGrow(s.carts, |s.producers|, |s.producers| + 1);
  }

  /**
   * `publish`: rejected, changing nothing, when the producer's queue is at
   * or above capacity; otherwise the unit joins the tail of that queue and
   * no other queue or cart changes.
   */
  function Publish<P(==)>(s: State<P>, id: nat, p: P): (r: (State<P>, bool))
    requires id < |s.producers|
    ensures r.1 <==> |s.producers[id]| < s.qSize
    ensures !r.1 ==> r.0 == s
    ensures r.0.qSize == s.qSize && r.0.carts == s.carts && |r.0.producers| == |s.producers|
    ensures r.1 ==> r.0.producers[id] == s.producers[id] + [p]
    ensures forall j :: 0 <= j < |s.producers| && j != id ==> r.0.producers[j] == s.producers[j]
    ensures |s.producers[id]| <= s.qSize ==> |r.0.producers[id]| <= s.qSize
  {
    if |s.producers[id]| >= s.qSize then (s, false)
    else (s.(producers := s.producers[id := s.producers[id] + [p]]), true)
  }

  /** An accepted publish adds exactly the published unit; a rejected one adds nothing. */
  lemma PublishConserves<P>(s: State<P>, id: nat, p: P)
    requires id < |s.producers|
    ensures var (t, ok) := Publish(s, id, p);
            Units(t) == if ok then Units(s) + multiset{p} else Units(s)
  {
    if |s.producers[id]| < s.qSize {
      StockAppendUnit(s.producers, id, p);
    }
  }

  lemma PublishKeepsValid<P>(s: State<P>, id: nat, p: P)
    requires Valid(s) && id < |s.producers|
    ensures Valid(Publish(s, id, p).0)
  {
  }

  /** Every queue within capacity stays within capacity, whatever is published. */
  lemma PublishBounded<P>(s: State<P>, id: nat, p: P)
    requires id < |s.producers|
    requires forall j :: 0 <= j < |s.producers| ==> |s.producers[j]| <= s.qSize
    ensures var t := Publish(s, id, p).0;
            forall j :: 0 <= j < |t.producers| ==> |t.producers[j]| <= t.qSize
  {
  }

  /** `new_cart`: the id is the number of carts created before, the cart starts empty, and nothing else changes. */
  function NewCart<P(==)>(s: State<P>): (r: (State<P>, nat))
    ensures r.1 == |s.carts|
    ensures |r.0.carts| == r.1 + 1 && r.0.carts[..r.1] == s.carts && r.0.carts[r.1] == []
    ensures r.0.producers == s.producers && r.0.qSize == s.qSize
  {
    (s.(carts := s.carts + [[]]), |s.carts|)
  }

  lemma NewCartConserves<P>(s: State<P>)
    ensures Units(NewCart(s).0) == Units(s)
  {
    SumAppend(s.carts, Held, []);
  }

  lemma NewCartKeepsValid<P>(s: State<P>)
    requires Valid(s)
    ensures Valid(NewCart(s).0)
  {
    AllWellFormedGrow(s.carts, |s.producers|, |s.producers|);
  }

  /**
   * `add_to_cart`: the cart gets an entry for the product if it had none;
   * then, if some producer holds the product, the first such producer in
   * registration order gives up its first such unit and is recorded at the
   * end of the cart's list for the product.
   */
  function AddToCart<P(==)>(s: State<P>, c: nat, p: P): (r: (State<P>, bool))
    requires c < |s.carts|
    ensures r.1 <==> exists i :: 0 <= i < |s.producers| && p in s.producers[i]
    ensures r.0.qSize == s.qSize && |r.0.producers| == |s.producers| && |r.0.carts| == |s.carts|
    ensures forall d :: 0 <= d < |s.carts| && d != c ==> r.0.carts[d] == s.carts[d]
    ensures Keys(r.0.carts[c]) == if p in Keys(s.carts[c]) then Keys(s.carts[c]) else Keys(s.carts[c]) + [p]
    ensures forall x :: x in Keys(s.carts[c]) && x != p ==> Reservations(r.0.carts[c], x) == Reservations(s.carts[c], x)
    ensures !r.1 ==> r.0.producers == s.producers && Reservations(r.0.carts[c], p) == Reservations(s.carts[c], p)
    ensures r.1 ==>
      var i := FirstHolder(s.producers, p).value;
      && r.0.producers[i] == RemoveFirst(s.producers[i], p)
      && (forall j :: 0 <= j < |s.producers| && j != i ==> r.0.producers[j] == s.producers[j])
      && Reservations(r.0.carts[c], p) == Reservations(s.carts[c], p) + [i]
  {
    var touched := Touch(s.carts[c], p);
    match FirstHolder(s.producers, p)
    case None => (s.(carts := s.carts[c := touched]), false)
    case Some(i) =>
      (s.(producers := s.producers[i := RemoveFirst(s.producers[i], p)],
          carts := s.carts[c := Reserve(touched, p, i)]), true)
  }

  /** A unit moved from a producer into a cart is neither created nor lost. */
  lemma AddToCartConserves<P>(s: State<P>, c: nat, p: P)
    requires c < |s.carts|
    ensures Units(AddToCart(s, c, p).0) == Units(s)
  {
    var carts := s.carts[c := Touch(s.carts[c], p)];
    TouchConserves(s.carts, c, p);
    match FirstHolder(s.producers, p)
    case None =>
    case Some(i) =>
      ReserveConserves(s.producers, carts, c, p, i);
      assert carts[c := Reserve(carts[c], p, i)] == s.carts[c := Reserve(Touch(s.carts[c], p), p, i)];
  }

  lemma AddToCartKeepsValid<P>(s: State<P>, c: nat, p: P)
    requires Valid(s) && c < |s.carts|
    ensures Valid(AddToCart(s, c, p).0)
  {
    var t := s.(carts := s.carts[c := Touch(s.carts[c], p)]);
    WellFormedTouchAll(s, c, p);
    match FirstHolder(s.producers, p)
    case None =>
    case Some(i) =>
      WellFormedReserveAll(t, c, p, i);
      assert t.carts[c := Reserve(t.carts[c], p, i)] == s.carts[c := Reserve(Touch(s.carts[c], p), p, i)];
  }

  /**
   * `remove_from_cart`: the oldest reservation of the product leaves the
   * cart, and its unit goes back to the tail of the queue of the producer it
   * came from, whatever that queue's length.
   */
  function RemoveFromCart<P(==)>(s: State<P>, c: nat, p: P): (r: State<P>)
    requires Valid(s) && c < |s.carts| && Reservations(s.carts[c], p) != []
    ensures var id := Reservations(s.carts[c], p)[0];
      && id < |s.producers|
      && |r.producers| == |s.producers|
      && r.producers[id] == s.producers[id] + [p]
      && (forall j :: 0 <= j < |s.producers| && j != id ==> r.producers[j] == s.producers[j])
    ensures r.qSize == s.qSize && |r.carts| == |s.carts|
    ensures forall d :: 0 <= d < |s.carts| && d != c ==> r.carts[d] == s.carts[d]
    ensures Keys(r.carts[c]) == Keys(s.carts[c])
    ensures Reservations(r.carts[c], p) == Reservations(s.carts[c], p)[1..]
    ensures forall x :: x in Keys(s.carts[c]) && x != p ==> Reservations(r.carts[c], x) == Reservations(s.carts[c], x)
  {
    var id := Reservations(s.carts[c], p)[0];
    WellFormedRelease(s.carts[c], p, |s.producers|);
    s.(producers := s.producers[id := s.producers[id] + [p]],
       carts := s.carts[c := Release(s.carts[c], p)])
  }

  /** A unit moved from a cart back to its producer is neither created nor lost. */
  lemma RemoveFromCartConserves<P>(s: State<P>, c: nat, p: P)
    requires Valid(s) && c < |s.carts| && Reservations(s.carts[c], p) != []
    ensures Units(RemoveFromCart(s, c, p)) == Units(s)
  {
    WellFormedRelease(s.carts[c], p, |s.producers|);
    ReleaseConserves(s.producers, s.carts, c, p);
  }

  lemma RemoveFromCartKeepsValid<P>(s: State<P>, c: nat, p: P)
    requires Valid(s) && c < |s.carts| && Reservations(s.carts[c], p) != []
    ensures Valid(RemoveFromCart(s, c, p))
  {
    WellFormedRelease(s.carts[c], p, |s.producers|);
    AllWellFormedUpdate(s.carts, |s.producers|, c, Release(s.carts[c], p));
  }

  lemma WellFormedTouchAll<P>(s: State<P>, c: nat, p: P)
    requires c < |s.carts|
    ensures Valid(s) ==> Valid(s.(carts := s.carts[c := Touch(s.carts[c], p)]))
  {
    if Valid(s) {
      WellFormedTouch(s.carts[c], p, |s.producers|);
      AllWellFormedUpdate(s.carts, |s.producers|, c, Touch(s.carts[c], p));
    }
  }

  lemma WellFormedReserveAll<P>(s: State<P>, c: nat, p: P, i: nat)
    requires c < |s.carts| && i < |s.producers| && p in Keys(s.carts[c])
    ensures Valid(s) ==> Valid(s.(carts := s.carts[c := Reserve(s.carts[c], p, i)]))
  {
    if Valid(s) {
      WellFormedReserve(s.carts[c], p, i, |s.producers|);
      AllWellFormedUpdate(s.carts, |s.producers|, c, Reserve(s.carts[c], p, i));
    }
  }

  /** A new empty entry in cart `c` holds no unit. */
  lemma TouchConserves<P>(carts: seq<Cart<P>>, c: nat, p: P)
    requires c < |carts|
    ensures HeldAll(carts[c := Touch(carts[c], p)]) == HeldAll(carts)
  {
    HeldTouch(carts[c], p);
    SumUpdate(carts, Held, c, Touch(carts[c], p));
    Cancel(HeldAll(carts[c := Touch(carts[c], p)]), HeldAll(carts), Held(carts[c]));
  }

  /** Moving a unit of `p` from producer `i` into cart `c` neither creates nor loses a unit. */
  lemma ReserveConserves<P>(producers: seq<seq<P>>, carts: seq<Cart<P>>, c: nat, p: P, i: nat)
    requires c < |carts| && i < |producers| && p in producers[i] && p in Keys(carts[c])
    ensures Stock(producers[i := RemoveFirst(producers[i], p)]) + HeldAll(carts[c := Reserve(carts[c], p, i)])
         == Stock(producers) + HeldAll(carts)
  {
    StockRemoveUnit(producers, i, p);
    HeldReserve(carts[c], p, i);
    SumUpdate(carts, Held, c, Reserve(carts[c], p, i));
    Cancel(HeldAll(carts[c := Reserve(carts[c], p, i)]), HeldAll(carts) + multiset{p}, Held(carts[c]));
  }

  /** Moving the oldest reservation of `p` in cart `c` back to its producer neither creates nor loses a unit. */
  lemma ReleaseConserves<P>(producers: seq<seq<P>>, carts: seq<Cart<P>>, c: nat, p: P)
    requires c < |carts| && Reservations(carts[c], p) != [] && Reservations(carts[c], p)[0] < |producers|
    ensures var id := Reservations(carts[c], p)[0];
            (Stock(producers[id := producers[id] + [p]]) + HeldAll(carts[c := Release(carts[c], p)])
             == Stock(producers) + HeldAll(carts))
  {
    var id := Reservations(carts[c], p)[0];
    StockAppendUnit(producers, id, p);
    HeldRelease(carts[c], p);
    SumUpdate(carts, Held, c, Release(carts[c], p));
    Cancel(HeldAll(carts[c := Release(carts[c], p)]) + multiset{p}, HeldAll(carts), Held(Release(carts[c], p)));
  }
}
