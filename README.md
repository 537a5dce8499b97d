# simple_pool: a verified model of `Pool<T>`

This project models the generic object pool `Pool<T>` of `pool.ts`. The pool
keeps an idle store of reusable items. It creates `min` of them at
construction ("pre-warm"). `get` lends out the item at the front of the store,
or asks the factory to create one when the store is empty. `release` returns an
item, keeping it only while the store holds fewer than `max` items, and always
runs the factory's optional release hook first. `drain` empties the store from
the back and runs the factory's optional drain hook on every truthy item. The
getters `minSize`, `maxSize` and `size` report the two options and the store's
length.

Files:

- `pool.dfy`, module `SimplePool`: the data types, the factory, the pool class,
  and the specification functions and lemmas for pre-warm and drain.
- `sequences.dfy`, module `Sequences`: `Kept` (filter) and `Reversed`, with the
  lemmas the drain proofs use.
- `scenarios.dfy`, module `PoolScenarios`: client methods that use only the
  pool's contracts. One is the example usage with sequential integer items.
  The others cover reuse after release, an overflowing release, and `get`
  after `drain`.

How the model is built:

- **The idle store.** The private array `pool` is the field `items: seq<T>` of
  class `Pool`. `push` becomes `items + [x]`, `splice(0, 1)` becomes `items[1..]`,
  and `pop` becomes `items[..|items| - 1]`. `factory`, `options` and the
  truthiness test are `const` fields. So no operation can change `min`, `max` or
  the factory, and `MinSize`, `MaxSize` and `Size` always read `options.min`,
  `options.max` and `|items|`.
- **The factory.** `PoolFactory<T>` is the class `Factory`, and the pool calls
  it. `create()` is a counter: the n-th call (counting from 0) settles as
  `outcome(n)`, which is either `Fulfilled(item)` or `Rejected`. A factory with
  `outcome(n) == Fulfilled(n + 1)` hands out 1, 2, 3, and so on. `hasRelease`
  and `hasDrain` say whether each optional hook exists. The drain hook's promise
  fulfils on `obj` exactly when `drainFulfils(obj)` holds. Two ghost logs,
  `released` and `drained`, record every hook call in order, so the contracts
  can state which hook ran on which item. Nothing the real hooks do to a
  resource is modelled.
- **Promises.** Each `await` is one sequential step. A rejected `create()` or
  drain-hook promise is modelled as an abort:
  - Pre-warm stops at the first rejected `create()` and keeps the items it has
    already stored.
  - `Get` returns `Rejected`.
  - `Drain` returns `false`. The item whose hook rejected has already been
    removed, and every item before it is still in the store.
- **Truthiness.** The drain loop tests `obj && this.factory.drain`, which uses
  JavaScript truthiness. The model takes truthiness as a function
  `truthy: T -> bool`, supplied when the pool is constructed.
- **Specification functions.** Pre-warm and drain are stated against pure
  functions. `Successes`, `Values` and `WarmCalls` describe pre-warm.
  `DrainSpec` describes drain: what is left in the store, which items the hook
  ran on in call order, and whether it failed. The lemmas `DrainSpecHooked`,
  `DrainSpecFailure` and `DrainSpecFulfilled` restate that result without
  reference to the loop. Two predicates name the conditions they use:
  `HookFulfilsAll` (no hook, or the hook fulfils on every truthy item) and
  `RejectedLast` (the last truthy item the hook rejects on).

Three behaviours of the code worth noting:

- The drain hook runs only on truthy items (pool.ts:63). A falsy item such as
  `0` or `""` is popped and dropped without a hook call.
- A release hook that throws is not caught by `release`.
- The store is first-in first-out for `get`/`release`, because `get` takes from
  the front and `release` appends at the back. `drain` works from the back.

## Model

| member | source | states |
|---|---|---|
| `SimplePool.Factory.constructor` | pool.ts:9-16 | a factory with the given create outcomes and hook presence, which has made no calls yet and logged no hook calls |
| `SimplePool.Factory.Create` | pool.ts:11 | the n-th create() call settles as `outcome(n)`; the counter moves on by one; no hook is logged |
| `SimplePool.Factory.Release` | pool.ts:13 | the optional release hook, callable only when defined, logs exactly its argument |
| `SimplePool.Factory.Drain` | pool.ts:15 | the optional drain hook, callable only when defined, logs exactly its argument; it fulfils exactly when `drainFulfils(obj)` |
| `SimplePool.Successes` | pool.ts:38-39 | the number of pre-warm items is the first rejected call's position among the `min` calls, or `min` when none rejects: every earlier call fulfilled, and the call at that position rejected |
| `SimplePool.Values` | pool.ts:38-39 | the pre-warmed items are the results of the fulfilled create() calls, one per call, in creation order |
| `SimplePool.WarmCalls` | pool.ts:38-39 | pre-warm calls create() once per stored item, plus once more for the rejected call that stops it early |
| `SimplePool.WarmAllFulfilled` | pool.ts:38-39 | when every create() fulfils, pre-warm makes exactly `min` calls and stores exactly `min` items, the i-th being the i-th call's result |
| `SimplePool.Pool.constructor` | pool.ts:29-41 | after construction and pre-warm, the store holds the fulfilled results of the first create() calls in creation order; create() was called `WarmCalls` times, which is `min` when none rejects; no hook ran; the options and factory are the given ones |
| `SimplePool.Pool.WithDefaults` | pool.ts:29 | with the default options `{min: 0, max: 10}` the store starts empty, and create() is not called |
| `SimplePool.Pool.InitPool` | pool.ts:37-41 | appends the pre-warm items to the store, in creation order, and stops after the first rejected create() |
| `SimplePool.Pool.Get` | pool.ts:44-49 | on a non-empty store: returns the old first item, the store loses exactly that item, and create() is not called. On an empty store: create() is called exactly once, its outcome is returned, and the store stays empty. No hook runs |
| `SimplePool.Pool.Release` | pool.ts:52-57 | the release hook logs `obj` exactly once when it exists, kept or not. The store becomes `old + [obj]` when it held fewer than `max` items; otherwise it is unchanged. The drain log and create() count are untouched. A store within `max` stays within `max`, and the store grows by at most one |
| `SimplePool.Pool.Drain` | pool.ts:60-65 | the store that is left, the drain hook's calls in order, and the outcome are exactly what `DrainSpec` gives for the old store; a drain that fulfils leaves the store empty; create() and the release hook are not called. `DrainSpecFulfilled`, `DrainSpecHooked` and `DrainSpecFailure` say what that result is |
| `SimplePool.Pool.MinSize` | pool.ts:68-70 | the pre-warm target from the options (a `const`, so no operation changes it) |
| `SimplePool.Pool.MaxSize` | pool.ts:73-75 | the cap on idle items from the options (a `const`, so no operation changes it) |
| `SimplePool.Pool.Size` | pool.ts:78-80 | the number of idle items |
| `SimplePool.DrainSpec` | pool.ts:60-65 | draining takes items from the back, so the first `left` items stay. A drain that does not fail leaves nothing; one that fails removed at least the failing item |
| `SimplePool.DrainSpecHooked` | pool.ts:61-63 | the hook calls are exactly the truthy items of the removed part of the store, in reverse order (last item first), one call each; falsy items get no call, and without a hook nothing is called |
| `SimplePool.DrainSpecHookedStep` | pool.ts:61-63 | popping one more item keeps that description of the hook calls: a truthy item whose hook fulfils becomes the first call, and one whose hook rejects is the only call |
| `SimplePool.DrainSpecFailure` | pool.ts:61-63 | a drain fails exactly when the hook exists and rejects on some truthy item. It then stops at the last such item: that item is the first one not left in the store, and every truthy item after it was drained successfully |
| `SimplePool.DrainSpecFulfilled` | pool.ts:60-65 | a drain of the whole store fulfils exactly when there is no hook or the hook fulfils on every truthy item; it then leaves nothing and calls the hook on every truthy item, last first |
| `SimplePool.DrainPopAccounted` | pool.ts:61-63 | one loop step of `drain` keeps the bookkeeping between the items still in the store, the hook calls made so far and the whole drain's result; a rejected hook call ends the drain with that item removed |
| `Sequences.Kept` | pool.ts:63 | the truthy filter never yields more items than its input |
| `Sequences.KeptMembers` | pool.ts:63 | an item is kept exactly when it is in the store and satisfies the test |
| `Sequences.KeptSnoc` | pool.ts:63 | one more item at the end is kept, at the end, exactly when it satisfies the test |
| `Sequences.Reversed` | pool.ts:61-62 | the order of repeated `pop`s has as many items as the store |
| `Sequences.ReversedAt` | pool.ts:61-62 | position k of that order holds the store's element k places from the end |
| `Sequences.ReversedSnoc` | pool.ts:61-62 | the last item of the store is the first one popped |
| `Sequences.ReversedKeptExtend` | pool.ts:61-63 | popping one more item puts it, when truthy, in front of the truthy items popped after it |
| `PoolScenarios.ExampleScenario` | pool.ts:29-56 | with `min` 2, `max` 3 and items 1, 2, 3, ...: the first `get` returns 1; after `release(1)` the next `get` returns 2; one item is left idle |
| `PoolScenarios.ReuseReleased` | pool.ts:44-56 | `release(x)` then `get()` on an empty store with room returns `x` and does not call create() |
| `PoolScenarios.OverflowNeverDrained` | pool.ts:52-65 | with `max` 0 a released item is dropped and never reaches the drain hook: whether a following drain fulfils or rejects, it leaves a prefix of the previously idle store and hooks exactly the truthy items removed from it, last first; when it fulfils that is every truthy idle item |
| `PoolScenarios.DrainOutcome` | pool.ts:60-65 | `drain` fulfils exactly when there is no hook or the hook fulfils on every truthy idle item; then the store is empty and the hook ran on the truthy items, last first. When it rejects, the store keeps exactly the items before the last truthy item whose hook rejects |
| `PoolScenarios.GetAfterDrain` | pool.ts:44-65 | after a successful drain the pool is still usable: `get` calls create() exactly once and returns its outcome |

## Left out

- Asynchronous scheduling: `initPool()` is started without being awaited
  (pool.ts:34), so a `get` issued early can race with the pre-warm appends. The
  model finishes pre-warm inside the constructor.
- Interleavings of in-flight `create()` or drain-hook awaits with other calls.
  This includes two releases that both pass the size check before either
  appends. The model runs every operation to completion, one at a time.
- A release hook that throws. In the source the exception leaves `release`
  before the item is appended. The model's release hook always returns.
- What `create`, `release` and `drain` do to the resources themselves. The
  model keeps only the create outcomes and the hook logs.
- The drain hook's outcome depends only on the item. A hook
  whose success depends on history or timing is not modelled.
- `number` as floating point. `min` and `max` are `nat`, so NaN, negative and
  fractional options are not modelled.
- The `this.pool ?` null guard in `size` (pool.ts:79). The field is always set
  at pool.ts:30, so the model's `Size` is just the store's length.
- Aliasing of the caller's objects. pool.ts:31-32 keeps the caller's `factory`
  and `options` objects by reference, so a caller who later changes
  `options.max` or removes `factory.drain` changes what `release`, `drain` and
  the getters do. The model's `factory` and `options` are fixed at construction
  (`options` is a `const` value, and the factory's hook presence is `const`).
- Validation of `max >= min`. The source has none, and neither does the model.
  With `max < min`, pre-warm fills the store above `max`. The bound proved for
  `Release` is only that a store within `max` stays within `max`.
- A partly settled promise returned from `get`. `Get` returns the settled
  outcome directly.
