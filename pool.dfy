/** The generic object pool of pool.ts: an idle store of reusable items, filled
    to a minimum at construction, lent out by `Get`, returned by `Release` up to
    a maximum, and emptied by `Drain`. */
module SimplePool {
  import opened Sequences

  /** How a promise settles: fulfilled with a value, or rejected. */
  datatype Settled<T> = Fulfilled(value: T) | Rejected

  /** `PoolOptions`: the pre-warm target and the cap on idle items. */
  datatype Options = Options(min: nat, max: nat)

  /** The options the pool uses when the caller gives none. */
  const DefaultOptions: Options := Options(0, 10)

  // ---------------------------------------------------------------------------
  // Pre-warm: the `min` calls of create() made at construction
  // ---------------------------------------------------------------------------

  /** The number of leading fulfilled outcomes among the `n` create() calls
      numbered `from`, `from + 1`, ...: pre-warm keeps calling create() until
      it has `n` items or one call rejects. */
  function Successes<T>(outcome: nat -> Settled<T>, from: nat, n: nat): (k: nat)
    ensures k <= n
    ensures forall i :: from <= i < from + k ==> outcome(i).Fulfilled?
    ensures k < n ==> outcome(from + k).Rejected?
  {
    if n == 0 then 0
    else
      var k := Successes(outcome, from, n - 1);
      if k == n - 1 && outcome(from + n - 1).Fulfilled? then n else k
  }

  /** The items produced by the `k` fulfilled create() calls numbered from `from`,
      in creation order. */
  function Values<T>(outcome: nat -> Settled<T>, from: nat, k: nat): (s: seq<T>)
    requires forall i :: from <= i < from + k ==> outcome(i).Fulfilled?
    ensures |s| == k
    ensures forall i :: 0 <= i < k ==> s[i] == outcome(from + i).value
  {
    if k == 0 then [] else Values(outcome, from, k - 1) + [outcome(from + k - 1).value]
  }

  /** The number of create() calls pre-warm makes: one per fulfilled item, plus
      the rejected call that stops it early, if any. */
  function WarmCalls<T>(outcome: nat -> Settled<T>, from: nat, n: nat): (c: nat)
    ensures var k := Successes(outcome, from, n);
      (k == n && c == n) || (k < n && c == k + 1 && outcome(from + k).Rejected?)
  {
    var k := Successes(outcome, from, n);
    if k < n then k + 1 else k
  }

  /** When every create() call fulfils, pre-warm makes exactly `n` calls and
      stores exactly `n` items, the i-th being the i-th call's result. */
  lemma WarmAllFulfilled<T>(outcome: nat -> Settled<T>, from: nat, n: nat)
    requires forall i :: from <= i < from + n ==> outcome(i).Fulfilled?
    ensures Successes(outcome, from, n) == n
    ensures WarmCalls(outcome, from, n) == n
    ensures Values(outcome, from, n) == seq(n, i requires 0 <= i < n => outcome(from + i).value)
  {
  }

  // ---------------------------------------------------------------------------
  // Drain: pop from the back until empty, awaiting the hook on truthy items
  // ---------------------------------------------------------------------------

  /** What draining the first `n` items of a store leaves behind: the first
      `left` items are still in the store, the drain hook was called on the
      items in `hooked` (in call order), and `failed` says whether a hook call
      rejected. */
  datatype DrainRun<T> = DrainRun(left: nat, hooked: seq<T>, failed: bool)

  /** Draining `store[..n]`: the last item is removed first; the hook runs on it
      only when it is truthy and the hook exists; a rejected hook call stops the
      drain with that item already removed. */
  function DrainSpec<T>(store: seq<T>, n: nat, hasDrain: bool, truthy: T -> bool, fulfils: T -> bool): (r: DrainRun<T>)
    requires n <= |store|
    ensures r.left <= n
    ensures r.failed ==> r.left < n
    ensures !r.failed ==> r.left == 0
    decreases n
  {
    if n == 0 then DrainRun(0, [], false)
    else
      var obj := store[n - 1];
      if truthy(obj) && hasDrain then
        if fulfils(obj) then
          var r := DrainSpec(store, n - 1, hasDrain, truthy, fulfils);
          DrainRun(r.left, [obj] + r.hooked, r.failed)
        else DrainRun(n - 1, [obj], true)
      else DrainSpec(store, n - 1, hasDrain, truthy, fulfils)
  }

  /** The hook is called on the truthy items of the drained part of the store
      (everything after what is left), last item first, once each; falsy items
      get no call, and without a hook nothing is called. */
  lemma {:induction false} DrainSpecHooked<T>(store: seq<T>, n: nat, hasDrain: bool, truthy: T -> bool, fulfils: T -> bool)
    requires n <= |store|
    ensures var r := DrainSpec(store, n, hasDrain, truthy, fulfils);
      r.hooked == (if hasDrain then Reversed(Kept(truthy, store[r.left..n])) else [])
    decreases n
  {
    if n == 0 {
      assert store[0..0] == [];
    } else {
      DrainSpecHooked(store, n - 1, hasDrain, truthy, fulfils);
      if hasDrain {
        DrainSpecHookedStep(store, n, truthy, fulfils);
      }
    }
  }

  /** One step of `DrainSpecHooked` with a hook: if draining `n - 1` items calls
      the hook as described, so does draining `n`. */
  lemma DrainSpecHookedStep<T>(store: seq<T>, n: nat, truthy: T -> bool, fulfils: T -> bool)
    requires 0 < n <= |store|
    requires var o := DrainSpec(store, n - 1, true, truthy, fulfils);
      o.hooked == Reversed(Kept(truthy, store[o.left..n - 1]))
    ensures var r := DrainSpec(store, n, true, truthy, fulfils);
      r.hooked == Reversed(Kept(truthy, store[r.left..n]))
  {
    if truthy(store[n - 1]) && !fulfils(store[n - 1]) {
      ReversedKeptExtend(truthy, store, n - 1, n);
      assert store[n - 1..n - 1] == [];
    } else {
      ReversedKeptExtend(truthy, store, DrainSpec(store, n - 1, true, truthy, fulfils).left, n);
    }
  }

  /** `store[k]` is the last truthy item of `store[..n]` the hook rejects on. */
  ghost predicate RejectedLast<T>(store: seq<T>, k: nat, truthy: T -> bool, fulfils: T -> bool, n: nat)
    requires k < n <= |store|
  {
    truthy(store[k]) && !fulfils(store[k]) &&
    forall i :: k < i < n && truthy(store[i]) ==> fulfils(store[i])
  }

  /** A drain fails exactly when the hook exists and rejects on some truthy item;
      it then stops at the last such item: that item is the first one not left in
      the store, and every truthy item after it was drained successfully. */
  lemma {:induction false} DrainSpecFailure<T>(store: seq<T>, n: nat, hasDrain: bool, truthy: T -> bool, fulfils: T -> bool)
    requires n <= |store|
    ensures var r := DrainSpec(store, n, hasDrain, truthy, fulfils);
      r.failed <==> hasDrain && exists i :: 0 <= i < n && truthy(store[i]) && !fulfils(store[i])
    ensures var r := DrainSpec(store, n, hasDrain, truthy, fulfils);
      r.failed ==> RejectedLast(store, r.left, truthy, fulfils, n)
    decreases n
  {
    if n > 0 {
      DrainSpecFailure(store, n - 1, hasDrain, truthy, fulfils);
    }
  }

  /** No hook, or the hook fulfils on every truthy item of `store`. */
  ghost predicate HookFulfilsAll<T>(store: seq<T>, hasDrain: bool, truthy: T -> bool, fulfils: T -> bool)
  {
    !hasDrain || forall i :: 0 <= i < |store| && truthy(store[i]) ==> fulfils(store[i])
  }

  /** A drain of the whole store fulfils exactly when there is no hook or the
      hook fulfils on every truthy item; it then empties the store and calls the
      hook on every truthy item, last first. */
  lemma DrainSpecFulfilled<T>(store: seq<T>, hasDrain: bool, truthy: T -> bool, fulfils: T -> bool)
    ensures var r := DrainSpec(store, |store|, hasDrain, truthy, fulfils);
      !r.failed <==> HookFulfilsAll(store, hasDrain, truthy, fulfils)
    ensures var r := DrainSpec(store, |store|, hasDrain, truthy, fulfils);
      !r.failed ==> r.left == 0 && r.hooked == (if hasDrain then Reversed(Kept(truthy, store)) else [])
  {
    DrainSpecHooked(store, |store|, hasDrain, truthy, fulfils);
    DrainSpecFailure(store, |store|, hasDrain, truthy, fulfils);
    assert store[0..|store|] == store;
  }

  /** The drain loop's bookkeeping: with `k` items still in the store and the
      hook already called on `done`, draining the rest as `DrainSpec` says
      completes the whole-store result `spec`. */
  ghost predicate DrainAccounted<T>(store: seq<T>, k: nat, hasDrain: bool, truthy: T -> bool, fulfils: T -> bool,
                                    spec: DrainRun<T>, done: seq<T>)
    requires k <= |store|
  {
    var r := DrainSpec(store, k, hasDrain, truthy, fulfils);
    spec.left == r.left && spec.hooked == done + r.hooked && spec.failed == r.failed
  }

  /** Popping the last of `n` items keeps the bookkeeping: a falsy item or a
      missing hook changes nothing, a fulfilled hook call moves the item to
      `done`, and a rejected one means `spec` is the run that stops there. */
  lemma DrainPopAccounted<T>(store: seq<T>, n: nat, hasDrain: bool, truthy: T -> bool, fulfils: T -> bool,
                             spec: DrainRun<T>, done: seq<T>)
    requires 0 < n <= |store|
    requires DrainAccounted(store, n, hasDrain, truthy, fulfils, spec, done)
    ensures var obj := store[n - 1];
      if truthy(obj) && hasDrain then
        if fulfils(obj) then DrainAccounted(store, n - 1, hasDrain, truthy, fulfils, spec, done + [obj])
        else spec == DrainRun(n - 1, done + [obj], true)
      else DrainAccounted(store, n - 1, hasDrain, truthy, fulfils, spec, done)
  {
  }

  // ---------------------------------------------------------------------------
  // The factory: the caller-supplied `PoolFactory<T>`
  // ---------------------------------------------------------------------------

  /** The factory the pool calls. `create()` is modelled as a counter: its n-th
      call (counting from 0) settles as `outcome(n)`. The optional `release` and
      `drain` hooks are present when `hasRelease` and `hasDrain` say so; the
      drain hook's promise fulfils on `obj` exactly when `drainFulfils(obj)`.
      The ghost logs record every hook call, in order. */
  class Factory<T> {
    const outcome: nat -> Settled<T>
    const hasRelease: bool
    const hasDrain: bool
    const drainFulfils: T -> bool
    var created: nat
    ghost var released: seq<T>
    ghost var drained: seq<T>

    constructor (outcome: nat -> Settled<T>, hasRelease: bool, hasDrain: bool, drainFulfils: T -> bool)
      ensures this.outcome == outcome && this.hasRelease == hasRelease
      ensures this.hasDrain == hasDrain && this.drainFulfils == drainFulfils
      ensures created == 0 && released == [] && drained == []
    {
      this.outcome := outcome;
      this.hasRelease := hasRelease;
      this.hasDrain := hasDrain;
      this.drainFulfils := drainFulfils;
      created := 0;
      released := [];
      drained := [];
    }

    /** `create()`: the next outcome in sequence. */
    method Create() returns (r: Settled<T>)
      modifies this
      ensures r == outcome(old(created)) && created == old(created) + 1
      ensures released == old(released) && drained == old(drained)
    {
      r := outcome(created);
      created := created + 1;
    }

    /** `release(obj)`, callable only when the factory defines it. */
    method Release(obj: T)
      requires hasRelease
      modifies this
      ensures released == old(released) + [obj]
      ensures created == old(created) && drained == old(drained)
    {
      released := released + [obj];
    }

    /** `drain(obj)`, callable only when the factory defines it. */
    method Drain(obj: T) returns (fulfilled: bool)
      requires hasDrain
      modifies this
      ensures fulfilled == drainFulfils(obj) && drained == old(drained) + [obj]
      ensures created == old(created) && released == old(released)
    {
      drained := drained + [obj];
      fulfilled := drainFulfils(obj);
    }
  }

  // ---------------------------------------------------------------------------
  // The pool
  // ---------------------------------------------------------------------------

  /** `Pool<T>`. The idle store `items` is the only state the pool changes; the
      factory and the options are fixed at construction. `truthy` stands for
      JavaScript truthiness of an item, which the drain loop tests. */
  class Pool<T> {
    var items: seq<T>
    const factory: Factory<T>
    const options: Options
    const truthy: T -> bool

    /** Builds a pool and pre-warms it: `options.min` calls of create(), each
        result appended in creation order, stopping at the first rejection. */
    constructor (factory: Factory<T>, options: Options, truthy: T -> bool)
      modifies factory
      ensures this.factory == factory && this.options == options && this.truthy == truthy
      ensures var from := old(factory.created);
        items == Values(factory.outcome, from, Successes(factory.outcome, from, options.min)) &&
        factory.created == from + WarmCalls(factory.outcome, from, options.min)
      ensures factory.released == old(factory.released) && factory.drained == old(factory.drained)
    {
      items := [];
      this.factory := factory;
      this.options := options;
      this.truthy := truthy;
      new;
      InitPool();
    }

    /** The same with the default options: `min` 0 makes pre-warm call nothing. */
    constructor WithDefaults(factory: Factory<T>, truthy: T -> bool)
      modifies factory
      ensures this.factory == factory && options == DefaultOptions && this.truthy == truthy
      ensures items == [] && factory.created == old(factory.created)
      ensures factory.released == old(factory.released) && factory.drained == old(factory.drained)
    {
      items := [];
      this.factory := factory;
      options := DefaultOptions;
      this.truthy := truthy;
      new;
      InitPool();
    }

    /** `initPool`: appends the results of up to `min` create() calls, stopping
        when one rejects. */
    method InitPool()
      modifies this, factory
      ensures var from := old(factory.created);
        items == old(items) + Values(factory.outcome, from, Successes(factory.outcome, from, options.min)) &&
        factory.created == from + WarmCalls(factory.outcome, from, options.min)
      ensures factory.released == old(factory.released) && factory.drained == old(factory.drained)
    {
      ghost var from := factory.created;
      var i := 0;
      while i < options.min
        invariant i <= options.min
        invariant factory.created == from + i
        invariant forall j :: from <= j < from + i ==> factory.outcome(j).Fulfilled?
        invariant items == old(items) + Values(factory.outcome, from, i)
        invariant factory.released == old(factory.released) && factory.drained == old(factory.drained)
      {
        var r := factory.Create();
        if r.Rejected? {
          assert Successes(factory.outcome, from, options.min) == i;
          return;
        }
        items := items + [r.value];
        i := i + 1;
      }
      assert Successes(factory.outcome, from, options.min) == i;
    }

    /** `get`: the first idle item, or else whatever create() settles to. */
    method Get() returns (r: Settled<T>)
      modifies this, factory
      ensures old(items) != [] ==>
        r == Fulfilled(old(items)[0]) && items == old(items)[1..] && factory.created == old(factory.created)
      ensures old(items) == [] ==>
        r == factory.outcome(old(factory.created)) && items == [] && factory.created == old(factory.created) + 1
      ensures factory.released == old(factory.released) && factory.drained == old(factory.drained)
    {
      if |items| != 0 {
        r := Fulfilled(items[0]);
        items := items[1..];
        return;
      }
      r := factory.Create();
    }

    /** `release`: the release hook always runs when defined; the item is kept
        only while the store holds fewer than `max` items. */
    method Release(obj: T)
      modifies this, factory
      ensures factory.released == old(factory.released) + (if factory.hasRelease then [obj] else [])
      ensures items == if old(Size()) < MaxSize() then old(items) + [obj] else old(items)
      ensures old(Size()) <= MaxSize() ==> Size() <= MaxSize()
      ensures Size() <= old(Size()) + 1
      ensures factory.created == old(factory.created) && factory.drained == old(factory.drained)
    {
      if factory.hasRelease {
        factory.Release(obj);
      }
      if Size() < options.max {
        items := items + [obj];
      }
    }

    /** `drain`: pops items from the back until the store is empty, awaiting the
        drain hook on every truthy one; a rejected hook call ends the drain and
        `fulfilled` is false. The store and the drain log end as `DrainSpec`
        says; `DrainSpecFulfilled`, `DrainSpecHooked` and `DrainSpecFailure`
        spell out what that is. */
    method Drain() returns (fulfilled: bool)
      modifies this, factory
      ensures var r := DrainSpec(old(items), |old(items)|, factory.hasDrain, truthy, factory.drainFulfils);
        items == old(items)[..r.left] && factory.drained == old(factory.drained) + r.hooked &&
        fulfilled == !r.failed
      ensures fulfilled ==> items == []
      ensures factory.created == old(factory.created) && factory.released == old(factory.released)
    {
      ghost var store, hasDrain, fulfils := items, factory.hasDrain, factory.drainFulfils;
      ghost var spec := DrainSpec(store, |store|, hasDrain, truthy, fulfils);
      ghost var done: seq<T> := [];
      fulfilled := true;
      while items != []
        invariant |items| <= |store| && items == store[..|items|]
        invariant factory.drained == old(factory.drained) + done
        invariant DrainAccounted(store, |items|, hasDrain, truthy, fulfils, spec, done)
        invariant factory.created == old(factory.created) && factory.released == old(factory.released)
        decreases |items|
      {
        DrainPopAccounted(store, |items|, hasDrain, truthy, fulfils, spec, done);
        var obj := items[|items| - 1];
        items := items[..|items| - 1];
        if truthy(obj) && factory.hasDrain {
          var ok := factory.Drain(obj);
          done := done + [obj];
          if !ok {
            fulfilled := false;
            break;
          }
        }
      }
    }

    /** `minSize`: the pre-warm target. */
    function MinSize(): nat
    {
      options.min
    }

    /** `maxSize`: the cap on idle items. */
    function MaxSize(): nat
    {
      options.max
    }

    /** `size`: the number of idle items. */
    function Size(): nat
      reads this
    {
      |items|
    }
  }
}
