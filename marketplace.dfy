/**
 * The marketplace object: producers publish units into bounded FIFO queues
 * of their own, consumers move units from those queues into carts and back,
 * and an order lists what a cart holds. Each method is one atomic step and
 * is proved to take the object from `Model()` to the state the matching
 * step of module Shop computes; the locks that serialise concurrent callers
 * are not part of the model.
 */
module Market {
  import opened Wrappers
  import opened Queues
  import opened Carts
  import opened Shop

  class Marketplace<P(==)> {
    /** The capacity every producer's queue is checked against when publishing. */
    const qSize: int
    /** `producers[i]` is the queue of the producer named `ProducerName(i)`, oldest unit first. */
    var producers: seq<seq<P>>
    /** `carts[c]` is the cart with id `c`. */
    var carts: seq<Cart<P>>

    /** The object's fields as a value of the state machine. */
    ghost function Model(): State<P>
      reads this
    {
      State(qSize, producers, carts)
    }

    ghost predicate Valid()
      reads this
    {
      Shop.Valid(Model())
    }

    constructor (queueSizePerProducer: int)
      ensures Valid()
      ensures Model() == Init(queueSizePerProducer)
    {
      qSize := queueSizePerProducer;
      producers := [];
      carts := [];
    }

    /** `register_producer`: the next registration number, with an empty queue of its own. */
    method RegisterProducer() returns (id: nat)
      requires Valid()
      modifies this
      ensures Valid()
      ensures (Model(), id) == Shop.RegisterProducer(old(Model()))
    {
      RegisterProducerKeepsValid(Model());
      id := |producers|;
      producers := producers + [[]];
    }

    /** `publish`: rejected, with no effect, when the producer's queue is at capacity; otherwise queued at its tail. */
    method Publish(producerId: nat, product: P) returns (ok: bool)
      requires Valid() && producerId < |producers|
      modifies this
      ensures Valid()
      ensures (Model(), ok) == Shop.Publish(old(Model()), producerId, product)
    {
      PublishKeepsValid(Model(), producerId, product);
      if |producers[producerId]| >= qSize {
        return false;
      }
      producers := producers[producerId := producers[producerId] + [product]];
      return true;
    }

    /** `new_cart`: the next cart id, with an empty cart of its own. */
    method NewCart() returns (id: nat)
      requires Valid()
      modifies this
      ensures Valid()
      ensures (Model(), id) == Shop.NewCart(old(Model()))
    {
      NewCartKeepsValid(Model());
      id := |carts|;
      carts := carts + [[]];
    }

    /**
     * `add_to_cart`: make sure the cart has an entry for the product, then
     * scan the producers in registration order and each one's queue from
     * its head, and move the first unit equal to the product into the cart.
     */
    method AddToCart(cartId: nat, product: P) returns (ok: bool)
      requires Valid() && cartId < |carts|
      modifies this
      ensures Valid()
      ensures (Model(), ok) == Shop.AddToCart(old(Model()), cartId, product)
    {
      AddToCartKeepsValid(Model(), cartId, product);
      if product !in Keys(carts[cartId]) {
        carts := carts[cartId := carts[cartId] + [(product, [])]];
      }
      var i := 0;
      while i < |producers|
        invariant 0 <= i <= |producers|
        invariant producers == old(producers)
        invariant carts == old(carts)[cartId := Touch(old(carts)[cartId], product)]
        invariant forall j :: 0 <= j < i ==> product !in producers[j]
      {
        var products := producers[i];
        var k := 0;
        while k < |products|
          invariant 0 <= k <= |products|
          invariant forall j :: 0 <= j < k ==> products[j] != product
        {
          var prod := products[k];
          if prod == product {
            FirstHolderIs(producers, product, i);
            assert carts[cartId := Reserve(carts[cartId], product, i)]
                == old(carts)[cartId := Reserve(Touch(old(carts)[cartId], product), product, i)];
            carts := carts[cartId := Reserve(carts[cartId], product, i)];
            producers := producers[i := RemoveFirst(products, prod)];
            return true;
          }
          k := k + 1;
        }
        i := i + 1;
      }
      return false;
    }

    /**
     * `remove_from_cart`: the oldest reservation of the product leaves the
     * cart and its unit goes back to the tail of the queue of the producer it
     * came from, without any capacity check.
     */
    method RemoveFromCart(cartId: nat, product: P)
      requires Valid() && cartId < |carts| && Reservations(carts[cartId], product) != []
      modifies this
      ensures Valid()
      ensures Model() == Shop.RemoveFromCart(old(Model()), cartId, product)
    {
      RemoveFromCartKeepsValid(Model(), cartId, product);
      var producerId := Reservations(carts[cartId], product)[0];
      carts := carts[cartId := Release(carts[cartId], product)];
      producers := producers[producerId := producers[producerId] + [product]];
    }

    /** `place_order`: the cart's entries with their reservation counts, changing nothing. */
    function PlaceOrder(cartId: nat): seq<(P, nat)>
      reads this
      requires cartId < |carts|
    {
      Order(carts[cartId])
    }
  }
}
