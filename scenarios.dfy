/** Clients of the pool that use only the contracts of its methods: the
    example usage with sequential integer items, reuse after release, an
    overflowing release, and use after drain. */
module PoolScenarios {
  import opened Sequences
  import opened SimplePool

  /** A pool with `min` 2 and `max` 3 whose factory hands out 1, 2, 3, ...
      holds [1, 2] after construction; `get` lends 1, `release(1)` makes the
      store [2, 1], and the next `get` lends 2. */
  method ExampleScenario() returns (first: Settled<int>, second: Settled<int>, size: nat)
    ensures first == Fulfilled(1) && second == Fulfilled(2) && size == 1
  {
    var factory := new Factory<int>(n => Fulfilled(n + 1), false, false, _ => true);
    var pool := new Pool<int>(factory, Options(2, 3), x => x != 0);
    assert Successes(factory.outcome, 0, 1) == 1;
    assert Successes(factory.outcome, 0, 2) == 2;
    assert pool.items == [1, 2];
    first := pool.Get();
    pool.Release(1);
    assert pool.items == [2, 1];
    second := pool.Get();
    size := pool.Size();
  }

  /** Releasing into an empty store with room, then getting, lends the very item
      that was released, without calling create(). */
  method ReuseReleased<T>(pool: Pool<T>, x: T) returns (r: Settled<T>)
    requires pool.items == [] && pool.MaxSize() > 0
    modifies pool, pool.factory
    ensures r == Fulfilled(x) && pool.items == []
    ensures pool.factory.created == old(pool.factory.created)
  {
    pool.Release(x);
    r := pool.Get();
  }

  /** With `max` 0 a released item is never kept and never handed to the drain
      hook: a drain right after it leaves a prefix of what was idle before and
      hooks only truthy items from that idle store, whether it fulfils or not;
      when it fulfils it hooks all of them. */
  method OverflowNeverDrained<T>(pool: Pool<T>, x: T) returns (fulfilled: bool)
    requires pool.MaxSize() == 0
    modifies pool, pool.factory
    ensures |pool.items| <= |old(pool.items)| && pool.items == old(pool.items)[..|pool.items|]
    ensures pool.factory.drained == old(pool.factory.drained) +
      (if pool.factory.hasDrain then Reversed(Kept(pool.truthy, old(pool.items)[|pool.items|..])) else [])
    ensures fulfilled ==> (pool.factory.drained == old(pool.factory.drained) +
      (if pool.factory.hasDrain then Reversed(Kept(pool.truthy, old(pool.items))) else []))
  {
    ghost var idle := pool.items;
    pool.Release(x);
    fulfilled := pool.Drain();
    DrainSpecHooked(idle, |idle|, pool.factory.hasDrain, pool.truthy, pool.factory.drainFulfils);
    DrainSpecFulfilled(idle, pool.factory.hasDrain, pool.truthy, pool.factory.drainFulfils);
    ghost var r := DrainSpec(idle, |idle|, pool.factory.hasDrain, pool.truthy, pool.factory.drainFulfils);
    assert |pool.items| == r.left;
    assert idle[r.left..|idle|] == idle[r.left..];
  }

  /** What a caller of `drain` observes: it fulfils exactly when there is no
      drain hook or the hook fulfils on every truthy idle item, and then the
      store is empty and the hook ran on the truthy items, last first. When it
      rejects, the store keeps the items before the last truthy item whose hook
      call rejects. */
  method DrainOutcome<T>(pool: Pool<T>) returns (fulfilled: bool)
    modifies pool, pool.factory
    ensures fulfilled <==> HookFulfilsAll(old(pool.items), pool.factory.hasDrain, pool.truthy, pool.factory.drainFulfils)
    ensures fulfilled ==> (pool.items == [] && pool.factory.drained == old(pool.factory.drained) +
      (if pool.factory.hasDrain then Reversed(Kept(pool.truthy, old(pool.items))) else []))
    ensures !fulfilled ==> (|pool.items| < |old(pool.items)| && pool.items == old(pool.items)[..|pool.items|] &&
      RejectedLast(old(pool.items), |pool.items|, pool.truthy, pool.factory.drainFulfils, |old(pool.items)|))
  {
    ghost var idle := pool.items;
    fulfilled := pool.Drain();
    DrainSpecFulfilled(idle, pool.factory.hasDrain, pool.truthy, pool.factory.drainFulfils);
    DrainSpecFailure(idle, |idle|, pool.factory.hasDrain, pool.truthy, pool.factory.drainFulfils);
  }

  /** A pool stays usable after a successful drain: `get` falls through to
      create() and returns what that call settles to. */
  method GetAfterDrain<T>(pool: Pool<T>) returns (drained: bool, r: Settled<T>)
    modifies pool, pool.factory
    ensures drained ==> r == pool.factory.outcome(old(pool.factory.created)) && pool.items == []
    ensures drained ==> pool.factory.created == old(pool.factory.created) + 1
  {
    drained := pool.Drain();
    r := pool.Get();
  }
}
