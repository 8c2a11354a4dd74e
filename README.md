# Marketplace model

This is a Dafny model of the `Marketplace` class of the producer/consumer
marketplace assignment (`assignments/1-marketplace/skel/tema/marketplace.py`).
Producers register with the marketplace and publish units of products into
FIFO stock queues of their own. Every queue is checked against one shared
capacity. Consumers open carts, reserve units from the producers' queues into
a cart, give reservations back, and place an order that lists each product in
the cart with the number of units reserved.

The model has two layers.

- `Shop` is the marketplace as a state machine over values. `State` holds the
  capacity, one queue per producer and the list of carts. There is one
  function per operation; each takes the state before a call to the state
  after it, together with the call's result. The contracts of these functions,
  and the lemmas beside them, state what the source promises. These include
  the capacity check, FIFO order of reservations, "nothing else changes", and
  conservation of units between queues and carts.
- `Market.Marketplace` is the class itself. Its fields are updated in place,
  and `add_to_cart` keeps the source's nested scan with early return. Each
  method is proved to move the object's `Model()` exactly as the matching
  `Shop` step does. Each method also keeps `Valid()`: every cart is a dict
  whose reservations name registered producers.

The supporting modules are:

- `Queues`: the producers' queues. This covers `list.remove`, the
  first-holder scan and the stock as a multiset.
- `Carts`: a cart as an association list. This keeps the key order that a
  Python dict exposes. It covers the dict operations the class uses and the
  order summary.
- `ProducerIds`: the `'prod' + str(n)` names, with proof that they are
  distinct.
- `Tally`: multiset totals used for conservation.
- `Scenarios`: short runs of the operations with fixed outcomes.

Producers are identified by registration number `n`; the name the source
returns is `ProducerName(n)`. Products are an opaque type `P` with equality.

Three behaviours of the code are easy to misread. The model follows the
code in each:

- **Capacity after a return.** The constructor's docstring calls
  `queue_size_per_producer` the maximum size of each producer's queue
  (marketplace.py line 20). `publish` keeps that bound
  (`Shop.PublishBounded`). `remove_from_cart` puts the unit back without a
  capacity check, so the code does not keep its own documented bound.
  `Scenarios.OvershootScenario` shows a queue of capacity 1 ending with two
  units.
- **Round trip.** One might expect `add_to_cart` followed by
  `remove_from_cart` of the same product to restore the producer's queue.
  It does not, for two reasons.
  - The unit comes back at the tail of the queue, not where it was taken
    from. So when the cart held no reservation of the product, the queue gets
    back the same units (as a multiset). It gets back the same sequence only
    when every unit from the first taken `p` onwards is `p`
    (`Scenarios.AddThenRemove`, `Queues.RequeueRestores`).
  - When the cart already held reservations of the product, the remove pops
    the oldest one. The unit then goes to that reservation's producer, which
    may not be the producer the add just took from
    (`Scenarios.AddThenRemove`, `Scenarios.ReturnToOldestScenario`).
- **Failed add.** One might expect a failed call to change nothing. A failed
  `add_to_cart` still leaves an empty entry for the product in the cart, and
  that entry shows up in the order with count 0 (`Carts.OrderTouch`,
  `Scenarios.LastUnitScenario`).

## Model

| member | source | states |
|---|---|---|
| Shop.Init | assignments/1-marketplace/skel/tema/marketplace.py:22-25 | a new marketplace has the given capacity, no producers and no carts, holds no unit, and is valid |
| Market.Marketplace.constructor | assignments/1-marketplace/skel/tema/marketplace.py:15-27 | the new object is valid and its model is `Shop.Init` of the capacity |
| Shop.RegisterProducer | assignments/1-marketplace/skel/tema/marketplace.py:33-38 | the id is the number of producers registered before; that producer's queue is empty; earlier queues, the carts and the capacity are unchanged |
| Shop.RegisterProducerFreshName | assignments/1-marketplace/skel/tema/marketplace.py:34 | the name `'prod' + str(id)` differs from the name of every producer registered earlier |
| Shop.RegisterProducerConserves | assignments/1-marketplace/skel/tema/marketplace.py:35 | registering a producer adds no unit to the marketplace |
| Shop.RegisterProducerKeepsValid | assignments/1-marketplace/skel/tema/marketplace.py:35 | carts stay well formed when a producer is added |
| Market.Marketplace.RegisterProducer | assignments/1-marketplace/skel/tema/marketplace.py:33-38 | the object moves exactly as `Shop.RegisterProducer` says, returns its id, and stays valid |
| Shop.Publish | assignments/1-marketplace/skel/tema/marketplace.py:52-58 | accepted exactly when the queue is below capacity; a rejection changes nothing; an acceptance appends the unit at that queue's tail; other queues, the carts and the capacity never change |
| Shop.PublishBounded | assignments/1-marketplace/skel/tema/marketplace.py:53-56 | if every queue is within capacity before a publish, every queue is within capacity after it |
| Shop.PublishConserves | assignments/1-marketplace/skel/tema/marketplace.py:56 | an accepted publish adds exactly the published unit to the marketplace, and a rejected one adds nothing |
| Shop.PublishKeepsValid | assignments/1-marketplace/skel/tema/marketplace.py:52-58 | publishing keeps the carts well formed |
| Market.Marketplace.Publish | assignments/1-marketplace/skel/tema/marketplace.py:52-58 | the object moves exactly as `Shop.Publish` says, returns its verdict, and stays valid |
| Shop.NewCart | assignments/1-marketplace/skel/tema/marketplace.py:66-70 | the id is the number of carts created before; that cart is empty; earlier carts, the queues and the capacity are unchanged |
| Shop.NewCartConserves | assignments/1-marketplace/skel/tema/marketplace.py:68 | a new cart adds no unit to the marketplace |
| Shop.NewCartKeepsValid | assignments/1-marketplace/skel/tema/marketplace.py:68 | adding an empty cart keeps the carts well formed |
| Market.Marketplace.NewCart | assignments/1-marketplace/skel/tema/marketplace.py:66-70 | the object moves exactly as `Shop.NewCart` says, returns its id, and stays valid |
| Shop.AddToCart | assignments/1-marketplace/skel/tema/marketplace.py:84-95 | succeeds exactly when some queue holds the product; the cart's keys gain the product at the end if it was missing; other products' reservations and other carts are unchanged; on failure no queue changes; on success the first holder in registration order loses its first unit equal to the product, no other queue changes, and that producer is appended to the cart's list for the product |
| Shop.AddToCartConserves | assignments/1-marketplace/skel/tema/marketplace.py:86-93 | a unit moved from a queue into a cart is neither created nor lost |
| Shop.AddToCartKeepsValid | assignments/1-marketplace/skel/tema/marketplace.py:84-93 | the cart stays a dict whose reservations name registered producers |
| Market.Marketplace.AddToCart | assignments/1-marketplace/skel/tema/marketplace.py:84-95 | the nested scan over producers and their queues, with early return, moves the object exactly as `Shop.AddToCart` says, returns its verdict, and keeps the object valid |
| Shop.RemoveFromCart | assignments/1-marketplace/skel/tema/marketplace.py:107-110 | the oldest reservation of the product is dropped and the others keep their order; its producer is registered and gets the unit back at the tail of its queue, with no capacity check; no other queue, product entry or cart changes |
| Shop.RemoveFromCartConserves | assignments/1-marketplace/skel/tema/marketplace.py:107-109 | a unit moved from a cart back to its producer is neither created nor lost |
| Shop.RemoveFromCartKeepsValid | assignments/1-marketplace/skel/tema/marketplace.py:107 | dropping a reservation keeps the carts well formed |
| Market.Marketplace.RemoveFromCart | assignments/1-marketplace/skel/tema/marketplace.py:107-110 | the object moves exactly as `Shop.RemoveFromCart` says and stays valid |
| Shop.TouchConserves | assignments/1-marketplace/skel/tema/marketplace.py:84-85 | the empty entry a cart gains holds no unit |
| Shop.ReserveConserves | assignments/1-marketplace/skel/tema/marketplace.py:90-91 | taking a unit from a producer's queue and recording it in a cart keeps the total of all units |
| Shop.ReleaseConserves | assignments/1-marketplace/skel/tema/marketplace.py:107-109 | dropping a reservation and returning its unit to that producer's queue keeps the total of all units |
| Queues.IndexOf | assignments/1-marketplace/skel/tema/marketplace.py:88-89 | the position found holds the product, and no earlier position does |
| Queues.RemoveFirst | assignments/1-marketplace/skel/tema/marketplace.py:91 | `list.remove`: one unit fewer; units before the first occurrence keep their places and later ones move up by one; exactly one unit equal to the product is gone |
| Queues.FirstHolder | assignments/1-marketplace/skel/tema/marketplace.py:86-93 | when found, the producer holds the product and no earlier producer does; nothing is found exactly when no producer holds it |
| Queues.FirstHolderIs | assignments/1-marketplace/skel/tema/marketplace.py:86-93 | a producer that holds the product, with no earlier producer holding it, is the one the scan picks |
| Queues.RequeueRestores | assignments/1-marketplace/skel/tema/marketplace.py:91 | removing the first `p` and appending `p` gives back the same queue exactly when every unit from that first `p` onwards is `p` |
| Queues.StockAppendUnit | assignments/1-marketplace/skel/tema/marketplace.py:56 | appending a unit to a queue adds exactly that unit to the producers' stock |
| Queues.StockRemoveUnit | assignments/1-marketplace/skel/tema/marketplace.py:91 | `list.remove` on a queue takes exactly that unit out of the producers' stock |
| Queues.StockRegister | assignments/1-marketplace/skel/tema/marketplace.py:35 | a new empty queue adds nothing to the stock |
| Carts.Find | assignments/1-marketplace/skel/tema/marketplace.py:84 | the product's entry is found exactly when the product is a key, and the entry found has that key |
| Carts.FindDistinct | assignments/1-marketplace/skel/tema/marketplace.py:84 | in a dict, looking up an entry's key finds that entry |
| Carts.Touch | assignments/1-marketplace/skel/tema/marketplace.py:84-85 | the product becomes a key, added at the end if it was missing; no reservation changes; keys stay distinct |
| Carts.Reserve | assignments/1-marketplace/skel/tema/marketplace.py:90 | keys unchanged; the product's list gains the producer at its end; other products' lists unchanged; keys stay distinct |
| Carts.Release | assignments/1-marketplace/skel/tema/marketplace.py:107 | keys unchanged; the product's list loses its first element; other products' lists unchanged; keys stay distinct |
| Carts.WellFormedTouch | assignments/1-marketplace/skel/tema/marketplace.py:84-85 | adding an empty entry keeps a cart well formed |
| Carts.WellFormedReserve | assignments/1-marketplace/skel/tema/marketplace.py:90 | recording a registered producer keeps a cart well formed |
| Carts.WellFormedRelease | assignments/1-marketplace/skel/tema/marketplace.py:107-108 | dropping the oldest reservation keeps a cart well formed, and the producer dropped is a registered one |
| Carts.Order | assignments/1-marketplace/skel/tema/marketplace.py:119 | one pair per entry, in first-insertion order, each product with the number of units reserved for it |
| Carts.OrderDetermined | assignments/1-marketplace/skel/tema/marketplace.py:119 | two dicts with the same keys in the same order, and the same number of reservations per key, give the same order |
| Carts.OrderTouch | assignments/1-marketplace/skel/tema/marketplace.py:119 | after the empty entry of a failed add, the order is unchanged if the product was a key, and otherwise gains the product with count 0 at its end |
| Carts.HeldCount | assignments/1-marketplace/skel/tema/marketplace.py:90 | a cart holds exactly as many units of a product as its list for that product has producers |
| Carts.HeldTouch | assignments/1-marketplace/skel/tema/marketplace.py:85 | an empty entry holds no unit |
| Carts.HeldReserve | assignments/1-marketplace/skel/tema/marketplace.py:90 | a new reservation adds exactly one unit of its product to the cart |
| Carts.HeldRelease | assignments/1-marketplace/skel/tema/marketplace.py:107 | dropping a reservation takes exactly one unit of its product out of the cart |
| ProducerIds.Decimal | assignments/1-marketplace/skel/tema/marketplace.py:34 | `str(n)`: a non-empty string of decimal digits, one digit exactly when `n < 10`, and no leading zero unless `n` is 0 |
| ProducerIds.DecimalInjective | assignments/1-marketplace/skel/tema/marketplace.py:34 | different numbers have different decimal renderings |
| ProducerIds.ProducerNameInjective | assignments/1-marketplace/skel/tema/marketplace.py:34 | different registration numbers give different producer names |
| Scenarios.CapacityScenario | assignments/1-marketplace/skel/tema/marketplace.py:52-58 | with capacity 2, one producer's three back-to-back publishes are accepted, accepted, rejected, and its queue holds the first two units |
| Scenarios.CapacityRun | assignments/1-marketplace/skel/tema/marketplace.py:52-58 | the same run through the class |
| Scenarios.OrderScenario | assignments/1-marketplace/skel/tema/marketplace.py:119 | an empty cart orders nothing; after two units of `p`, from two producers, and one unit of `q`, the order is `[(p, 2), (q, 1)]` |
| Scenarios.FifoScenario | assignments/1-marketplace/skel/tema/marketplace.py:107-109 | with reservations from producer 0 and then producer 1, the first removal returns the unit to producer 0 and the second to producer 1 |
| Scenarios.LastUnitScenario | assignments/1-marketplace/skel/tema/marketplace.py:84-95 | two carts ask for the only unit: the first gets it, the second is refused, and the second cart orders the product with count 0 |
| Scenarios.OvershootScenario | assignments/1-marketplace/skel/tema/marketplace.py:107-110 | with capacity 1, a unit returned after the producer has published again leaves that queue with two units, above capacity |
| Scenarios.AddThenRemove | assignments/1-marketplace/skel/tema/marketplace.py:84-110 | for any valid state and cart: the add takes a unit from first holder `i`; the remove gives it to `j`, the head of the cart's list before the add with `i` appended; `j == i` exactly when that list was empty or started with `i`; the queues are those after the add with `p` appended to queue `j`; the cart's list for `p` has rotated by one; the cart's order is as after a failed add; no unit is created or lost. When the cart held no `p`, queue `i` gets back the same units, and the same sequence exactly when every unit from its first `p` onwards is `p` |
| Scenarios.ReturnToOldestScenario | assignments/1-marketplace/skel/tema/marketplace.py:90-109 | a cart holding `p` from producer 0 takes `p` from producer 1 and then removes `p`: the unit goes to producer 0, leaving the queues `[[p], []]` and the cart's list `[1]` |
| Scenarios.OrderReserveRelease | assignments/1-marketplace/skel/tema/marketplace.py:90-107 | reserving a unit of a product and then releasing the oldest reservation of it leaves the cart's order as it was |

`Market.Marketplace.PlaceOrder` is `Carts.Order` of the cart. It is a function
that reads the object and changes nothing, so its properties are the ones in
the `Carts.Order` and `Carts.OrderTouch` rows.

## Left out

- Locks (`producer_locks`, the two registration locks) and every question of
  interleaving or atomicity: each method is one atomic step.
- Retrying after a `False` result: that is done by the calling producer and
  consumer threads, which are not part of this model.
- The `Product` type: it is an opaque type parameter with equality.
- The string form of producer ids: producers are indexed by registration
  number, and the string they are given is `ProducerIds.ProducerName`.
- Negative cart ids: Python's list indexing maps `-1` down to `-len(carts)`
  to the last carts, but these are not modelled. Cart ids are the `nat`s
  that `new_cart` returns.
- `KeyError` and `IndexError` on unknown producer ids, unknown cart ids, or a
  cart with no reservation of the product: these are preconditions.
- Market.Marketplace.RemoveFromCart: requires `Valid()`, so that the producer
  named by the reservation is registered. Every object built with the
  constructor and the methods is valid; with that precondition dropped, the
  source would raise `KeyError` at line 108.
