/**
 * The producer side of the marketplace: one FIFO stock queue per producer,
 * indexed by registration number.
 */
module Queues {
  import opened Wrappers
  import opened Tally

  /** Position of the first unit equal to `p` in queue `q`. */
  function IndexOf<P(==)>(q: seq<P>, p: P): (k: nat)
    requires p in q
    ensures k < |q| && q[k] == p
    ensures forall j :: 0 <= j < k ==> q[j] != p
  {
    if q[0] == p then 0 else 1 + IndexOf(q[1..], p)
  }

  /** Extending a queue at its tail does not move the first `p` it already holds. */
  lemma IndexOfAppend<P>(s: seq<P>, t: seq<P>, p: P)
    requires p in s
    ensures IndexOf(s + t, p) == IndexOf(s, p)
  {
    assert (s + t)[IndexOf(s, p)] == p;
  }

  /**
   * Python's `list.remove(p)`: the queue without its first unit equal to `p`;
   * the units before it keep their places and the ones after it move up by one.
   */
  function RemoveFirst<P(==)>(q: seq<P>, p: P): (r: seq<P>)
    requires p in q
    ensures |r| == |q| - 1
    ensures forall j :: 0 <= j < |r| ==> r[j] == if j < IndexOf(q, p) then q[j] else q[j + 1]
    ensures multiset(r) + multiset{p} == multiset(q)
  {
    var k := IndexOf(q, p);
    assert q == q[..k] + [q[k]] + q[k + 1..];
    q[..k] + q[k + 1..]
  }

  /**
   * The producer `add_to_cart` takes a unit of `p` from: the first one, in
   * registration order, whose queue holds `p`; None when no queue holds it.
   */
  function FirstHolder<P(==)>(qs: seq<seq<P>>, p: P): (r: Option<nat>)
    ensures r.Some? ==> r.value < |qs| && p in qs[r.value]
    ensures r.Some? ==> forall j :: 0 <= j < r.value ==> p !in qs[j]
    ensures r.None? <==> forall j :: 0 <= j < |qs| ==> p !in qs[j]
  {
    if qs == [] then None
    else if p in qs[0] then Some(0)
    else match FirstHolder(qs[1..], p)
      case None => None
      case Some(i) => Some(i + 1)
  }

  /** The producer that holds `p` and has none before it holding `p` is the first holder. */
  lemma FirstHolderIs<P>(qs: seq<seq<P>>, p: P, i: nat)
    requires i < |qs| && p in qs[i]
    requires forall j :: 0 <= j < i ==> p !in qs[j]
    ensures FirstHolder(qs, p) == Some(i)
  {
  }

  function QueueUnits<P>(q: seq<P>): multiset<P>
  {
    multiset(q)
  }

  /** All units still offered by the producers. */
  function Stock<P>(qs: seq<seq<P>>): multiset<P>
  {
    Sum(qs, QueueUnits)
  }

  /** Putting a unit back at the tail of a queue restores the queue exactly
      when every unit from its first `p` onwards is `p` itself. */
  lemma RequeueRestores<P>(q: seq<P>, p: P)
    requires p in q
    ensures RemoveFirst(q, p) + [p] == q <==> forall j :: IndexOf(q, p) <= j < |q| ==> q[j] == p
  {
    RequeueAt(q, p, IndexOf(q, p), RemoveFirst(q, p));
  }

  lemma RequeueAt<P>(q: seq<P>, p: P, k: nat, r: seq<P>)
    requires k < |q| && q[k] == p && r == q[..k] + q[k + 1..]
    ensures r + [p] == q <==> forall j :: k <= j < |q| ==> q[j] == p
  {
    var x, y := q[..k], q[k + 1..];
    assert q == x + ([p] + y);
    assert r + [p] == x + (y + [p]);
    CommonPrefix(x, y + [p], [p] + y);
    RotateBy(y, p);
    TailAll(q, k, p, y);
  }

  lemma TailAll<P>(q: seq<P>, k: nat, p: P, y: seq<P>)
    requires k < |q| && q[k] == p && y == q[k + 1..]
    ensures (forall j :: k <= j < |q| ==> q[j] == p) <==> (forall j :: 0 <= j < |y| ==> y[j] == p)
  {
    if forall j :: 0 <= j < |y| ==> y[j] == p {
      forall j | k < j < |q| ensures q[j] == p {
        assert q[j] == y[j - k - 1];
      }
    }
  }

  lemma CommonPrefix<P>(x: seq<P>, b: seq<P>, c: seq<P>)
    ensures x + b == x + c <==> b == c
  {
    if x + b == x + c {
      assert (x + b)[|x|..] == b && (x + c)[|x|..] == c;
    }
  }

  /** `y + [p]` and `[p] + y` agree exactly when `y` holds nothing but `p`. */
  lemma RotateBy<P>(y: seq<P>, p: P)
    ensures y + [p] == [p] + y <==> forall j :: 0 <= j < |y| ==> y[j] == p
  {
    if forall j :: 0 <= j < |y| ==> y[j] == p {
      assert forall j :: 0 <= j < |y| + 1 ==> (y + [p])[j] == p == ([p] + y)[j];
    }
    if y + [p] == [p] + y {
      forall j | 0 <= j < |y| ensures y[j] == p {
        AllEqualPrefix(y, p, j);
      }
    }
  }

  lemma {:induction false} AllEqualPrefix<P>(y: seq<P>, p: P, j: nat)
    requires y + [p] == [p] + y && j < |y|
    ensures y[j] == p
  {
    if j == 0 {
      assert (y + [p])[0] == ([p] + y)[0];
    } else {
      AllEqualPrefix(y, p, j - 1);
      assert (y + [p])[j] == ([p] + y)[j];
    }
  }

  /** Publishing or returning a unit to producer `i` adds exactly that unit to the stock. */
  lemma StockAppendUnit<P>(qs: seq<seq<P>>, i: nat, p: P)
    requires i < |qs|
    ensures Stock(qs[i := qs[i] + [p]]) == Stock(qs) + multiset{p}
  {
    SumUpdate(qs, QueueUnits, i, qs[i] + [p]);
    assert QueueUnits(qs[i] + [p]) == QueueUnits(qs[i]) + multiset{p};
    Cancel(Stock(qs[i := qs[i] + [p]]), Stock(qs) + multiset{p}, QueueUnits(qs[i]));
  }

  /** Taking a unit of `p` out of producer `i` removes exactly that unit from the stock. */
  lemma StockRemoveUnit<P>(qs: seq<seq<P>>, i: nat, p: P)
    requires i < |qs| && p in qs[i]
    ensures Stock(qs[i := RemoveFirst(qs[i], p)]) + multiset{p} == Stock(qs)
  {
    var r := RemoveFirst(qs[i], p);
    SumUpdate(qs, QueueUnits, i, r);
    assert QueueUnits(qs[i]) == QueueUnits(r) + multiset{p};
    Cancel(Stock(qs[i := r]) + multiset{p}, Stock(qs), QueueUnits(r));
  }

  /** A newly registered producer brings no stock. */
  lemma StockRegister<P>(qs: seq<seq<P>>)
    ensures Stock(qs + [[]]) == Stock(qs)
  {
    SumAppend(qs, QueueUnits, []);
  }
}
