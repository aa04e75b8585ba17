# map_refresher, modelled in Dafny

`refresher::map_refresher<K, V>` (the header `maprefresher.h`) holds a pointer to a
caller's `std::map<K, V>` and an updater `V(K, V)`. It replaces every value of the map
with `updater(key, value)`. It does this on demand (`sync_refres_now`) or from a
background thread that refreshes, sleeps for the configured number of milliseconds,
and repeats while its running flag is up. The object also keeps the flag and the
interval: the constructors set them, `start` and `stop` raise and lower the flag,
`change_wait_interval` sets the interval, and the destructor stops a running refresher.

The model has three modules:

- `RefreshSpec` (`refresh_spec.dfy`) holds the pure specification of a pass.
  - `Pass(f, m)` gives each key `f(key, old value)`.
  - `Passes(f, m, n)` is `n` passes in a row, and `ApplyN` applies the updater `n` times to one value.
  - `KeysInOrder` is the ascending order in which a `std::map` is walked, and `Invocations(m)` lists the updater calls one pass makes.
  - The lemmas relate these definitions.
- `Refresher` (`map_refresher.dfy`) holds two classes.
  - `TargetMap` is the caller's map, reached through a shared reference.
  - `MapRefresher` has the running flag and the interval as mutable fields. Its methods change them with frame conditions.
  - `SyncRefreshNow` is the in-place pass: a loop that visits the keys in ascending order, copies each entry and writes the updated value back under the same key. It is proved equal to `Pass`.
  - `RunnerRound` is one round of the background loop and runs the same pass.
- `DoublingExample` (`doubling_example.dfy`) is the repository's example program: `{a:10, b:30, c:50}` doubled by every pass.

Keys are modelled as `int`, ordered by `<`, which stands for the ordering `std::map`
iterates in; the example's `char` keys are their character codes. The updater is a
pure total Dafny function `(int, V) -> V`. The interval is an `unsigned int`, the
subset type `uint32`.

## Model

| member | source | states |
|---|---|---|
| `RefreshSpec.Least` | maprefresher.h:98 | the walk of a non-empty map starts at a key of the map that is below or equal to every other key |
| `RefreshSpec.KeysInOrder` | maprefresher.h:98 | the keys a `std::map` range-for visits: exactly the map's keys, each once (as many as there are keys), strictly ascending |
| `RefreshSpec.SortedKeysUnique` | maprefresher.h:98 | any strictly ascending sequence holding exactly the map's keys is that walk, so the visiting order is fully determined |
| `RefreshSpec.WalkStep` | maprefresher.h:98-100 | stepping to the least key not yet visited keeps the visited prefix ascending, below every key still to visit, and the two together exactly the key set |
| `RefreshSpec.WalkDone` | maprefresher.h:98-100 | once no key is left to visit, the keys visited are the map's keys in ascending order |
| `RefreshSpec.InvocationsOncePerKeyAscending` | maprefresher.h:98-100 | a pass calls the updater once per key (as many calls as keys), keys strictly ascending from call to call, each call on a key of the map with that key's value from before the pass, and every key is called |
| `RefreshSpec.PassByKey` | maprefresher.h:97-101 | a table with the old key set in which every key holds `updater(key, old value)` is the pass's result |
| `RefreshSpec.PassesApplyN` | maprefresher.h:65-69 | after `n` passes the key set is unchanged and every key holds the updater applied `n` times to its original value |
| `RefreshSpec.PassesCompose` | maprefresher.h:65-69 | `a` background passes followed by `b` more (background or on demand) are `a + b` passes |
| `Refresher.TargetMap.constructor` | example/example.cpp:18-22 | the caller's map starts with exactly the entries the caller put in |
| `Refresher.MapRefresher.constructor` | maprefresher.h:35-37 | a new refresher points at the given map and updater, is not running, and has the default interval 60000 ms; the map is untouched |
| `Refresher.MapRefresher.WithInterval` | maprefresher.h:51-54 | a new refresher points at the given map and updater, is not running, and has exactly the given interval; the map is untouched |
| `Refresher.MapRefresher.Start` | maprefresher.h:61-62 | the running flag is up afterwards, whatever it was before (a second start is not rejected); the interval is unchanged |
| `Refresher.MapRefresher.Stop` | maprefresher.h:79-80 | the running flag is down afterwards; the interval is unchanged |
| `Refresher.MapRefresher.ChangeWaitInterval` | maprefresher.h:89-91 | the interval becomes the given value, zero included, and the running flag is unchanged |
| `Refresher.MapRefresher.SyncRefreshNow` | maprefresher.h:97-101 | after the in-place loop the key set is the old one, every key holds `updater(key, its own old value)`, the map equals `Pass` of the old map, and the updater was called in the order `Invocations` gives (once per key, ascending) |
| `Refresher.MapRefresher.RunnerRound` | maprefresher.h:65-69 | with the flag up, one round performs exactly the pass `SyncRefreshNow` performs and then waits the current interval; with the flag down the loop ends and the map is untouched |
| `Refresher.MapRefresher.Destroy` | maprefresher.h:107-110 | stop is called exactly when the refresher was running; afterwards it is not running, the interval is kept, and a refresher that was not running is left entirely unchanged |
| `DoublingExample.ApplyNDouble` | example/example.cpp:24-29 | doubling `n` times multiplies the value by `2^n` |
| `DoublingExample.DoublingAfterPasses` | example/example.cpp:20-30 | after `n` passes the table has keys `a`, `b`, `c` and holds `10 * 2^n`, `30 * 2^n`, `50 * 2^n` |
| `DoublingExample.PollingEndsAfterFourPasses` | example/example.cpp:33-37 | the caller's `while (x['a'] < 100)` keeps waiting exactly while fewer than four passes have run |
| `DoublingExample.Run` | example/example.cpp:17-47 | with the background rounds run one at a time while the caller polls, `a` is 160 when the caller stops, still 160 after a later round, and 320 after the forced refresh |

## Left out

- The background thread is not modelled: `std::thread` creation, `detach`, `sleep_for` and the `std::atomic` wrappers (maprefresher.h:63-72). Sequential Dafny cannot express concurrency or time. `RunnerRound` models one round of the thread's loop. How many rounds run between two caller actions depends on timing and is not modelled; `DoublingExample.Run` picks one interleaving.
- The caller and the detached thread both read and write the map without a lock. That is a data race and undefined behaviour, with no sequential meaning, so the model lets no two passes overlap.
- The `runner_` pointer is not modelled (maprefresher.h:21, 63, 81). `stop` deletes the thread object without joining it. `runner_` is uninitialised if `stop` comes before `start`. A second `stop` deletes the same pointer again. A second `start` leaks the first thread, which keeps running.
- Refresher.MapRefresher.Stop: it does not claim that stopping is idempotent or that no refresh happens after it returns. The header guarantees neither: a detached thread can be mid-pass or asleep when the flag drops, and it reads the object again when it wakes.
- Behaviours that a stricter design would add are not in the header, so the model follows the header and leaves them out. They are: rejecting a second `start` with an "already running" error, rejecting an interval of 0, a policy for an updater that fails on one key, joining the thread in `stop`, and serialising map accesses with a mutex.
- The updater is modelled as a total, pure function. A C++ updater that throws would end `sync_refres_now` part-way, with some keys updated. In the thread it would terminate the program. The example updater's `printf` is dropped.
- Keys are `int` rather than an arbitrary `K` with a user-defined `operator<`. Any strict weak ordering iterates like `<` on the equivalence classes of its keys.
- DoublingExample.Double: it computes `value * 2` on unbounded integers, whereas the example's C++ `int` would overflow after about 27 doublings of 10. The example run stops at 320, far below that.
- The example's `printf` output, `sleep` calls and `print_map` (example/example.cpp:9-15, 34-45) are I/O and are not modelled.
