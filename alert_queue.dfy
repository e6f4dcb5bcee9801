/**
 The floating notifications of the login view. `addAlert` appends at the
 tail; the expiry timer removes the head (`prev.slice(1)`). The queue is
 first in, first out: alerts leave in the order they arrived.
 */
module AlertQueue {

  datatype AlertKind = Info | Error | Success | Warning

  /** An alert. Its `id` is the clock reading (`Date.now()`) at the moment it
      is added, taken here as an input; two alerts may share one. */
  datatype Alert = Alert(id: int, message: string, kind: AlertKind)

  /** `[...prev, a]`. */
  function Push<T>(q: seq<T>, a: T): (r: seq<T>)
    ensures |r| == |q| + 1
    ensures r[..|q|] == q && r[|q|] == a
  {
    q + [a]
  }

  /** `prev.slice(1)`: the queue without its head, and the empty queue for the
      empty queue. */
  function DropHead<T>(q: seq<T>): (r: seq<T>)
    ensures q == [] ==> r == []
    ensures q != [] ==> q == [q[0]] + r
  {
    if q == [] then [] else q[1..]
  }

  /** The queue after `k` expiries. */
  function ExpireTimes<T>(q: seq<T>, k: nat): seq<T>
    decreases k
  {
    if k == 0 then q else ExpireTimes(DropHead(q), k - 1)
  }

  /** The alerts that `k` expiries remove, in the order they go. */
  function Expired<T>(q: seq<T>, k: nat): seq<T>
    decreases k
  {
    if k == 0 || q == [] then [] else [q[0]] + Expired(DropHead(q), k - 1)
  }

  /** The queue after pushing `xs` one by one. */
  function PushAll<T>(q: seq<T>, xs: seq<T>): seq<T>
    decreases |xs|
  {
    if xs == [] then q else PushAll(Push(q, xs[0]), xs[1..])
  }

  /** Pushing a sequence of alerts appends it in order. */
  lemma {:induction false} PushAllAppends<T>(q: seq<T>, xs: seq<T>)
    ensures PushAll(q, xs) == q + xs
    decreases |xs|
  {
    if xs != [] {
      PushAllAppends(Push(q, xs[0]), xs[1..]);
      assert q + [xs[0]] + xs[1..] == q + xs;
    }
  }

  /** `k` expiries remove exactly the `k` oldest alerts, oldest first, and
      keep the rest in their order. */
  lemma {:induction false} ExpireIsFifo<T>(q: seq<T>, k: nat)
    requires k <= |q|
    ensures Expired(q, k) == q[..k]
    ensures ExpireTimes(q, k) == q[k..]
    decreases k
  {
    if k > 0 {
      ExpireIsFifo(q[1..], k - 1);
      assert q[..k] == [q[0]] + q[1..][..k - 1];
      assert q[k..] == q[1..][k - 1..];
    }
  }

  /** Expiring more often than there are alerts empties the queue. */
  lemma {:induction false} ExpireAll<T>(q: seq<T>, k: nat)
    requires k >= |q|
    ensures ExpireTimes(q, k) == []
    ensures Expired(q, k) == q
    decreases k
  {
    if k > 0 && q != [] {
      ExpireAll(q[1..], k - 1);
    } else if k > 0 {
      ExpireAll(q, k - 1);
    }
  }

  /** A push does not change which alert expires next: on a non-empty queue,
      pushing and then expiring is expiring and then pushing. */
  lemma PushThenExpire<T>(q: seq<T>, a: T)
    requires q != []
    ensures DropHead(Push(q, a)) == Push(DropHead(q), a)
  {
    assert (q + [a])[1..] == q[1..] + [a];
  }

  /** Alerts pushed into an empty queue are expired in the order they were
      pushed. */
  lemma PushedExpireInOrder<T>(xs: seq<T>)
    ensures Expired(PushAll([], xs), |xs|) == xs
    ensures ExpireTimes(PushAll([], xs), |xs|) == []
  {
    PushAllAppends([], xs);
    assert [] + xs == xs;
    ExpireIsFifo(xs, |xs|);
    assert xs[..|xs|] == xs;
  }
}
