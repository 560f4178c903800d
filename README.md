# node-mutex: a verified model of the Redis lease lock

This project models `node-mutex`, a cooperative distributed mutex for Node.js
built on Redis. It covers `lib/mutex.js` and the `extend` helper of
`lib/utils.js`. A lock on a name is a lease: the Redis key
`<prefix>/<ns>/<name>` holds the lease's expiry timestamp.

- `lock` takes the lease with SETNX. If the key exists, it reads the stored
  expiry. Once that expiry is strictly in the past, it reclaims the lease with
  GETSET. Otherwise it reports the time left on the lease.
- `free` deletes the key and publishes `'1'` on `<key>/free`, as one MULTI/EXEC
  transaction.
- `cleanDeadlocks` lists the namespace's keys and reads their expiries. It
  deletes those due at or before now, among the first `gcLimit` keys.
- `isolate`, `isolateRetry`, `isolateCond` and `isolateCondRetry` run a
  caller's work while the lock is held.

The model has four modules:

- `Js` (`js.dfy`): the JavaScript values that cross the interface, plus
  truthiness and string conversion.
- `Utils` (`utils.dfy`): `extend`. It is a function on property maps, plus an
  in-place method on a `JsObject` class.
- `Redis` (`redis.dfy`): the server as a `Store` class. It holds the key map,
  the log of published messages and the fate of each upcoming round trip
  (success, or an error with a message). Each command used by the library is
  one method, one atomic step and one round trip. A command that errs changes
  nothing.
- `Mutex` (`mutex.dfy`): the configuration defaults, key naming, and the
  protocol. Each operation has a specification function over the server
  state (`LockSpec`, `FreeSpec`, `IsolateRun`, `RetryRun`, `CondRun`,
  `CondRetryRun`). The `Mutex` class's methods call the store's commands step
  by step. `Lock`, `Free` and the four isolate methods are proved equal to
  their functions, and the lemmas state the protocol's properties about those
  functions. `CleanDeadlocks` is specified directly by its postcondition:
  which keys it deletes, and which error it reports. `RunLocked` is specified
  by what it hands to the callback.

The clock is a parameter: each lock attempt carries its own time reading.
Another client's write or delete between `lock`'s GET and GETSET is also a
parameter (`Interference`). A callback is modelled by the arguments it
receives. The work is modelled by the arguments it passes to its completion
callback.

Behaviours of the code worth knowing:

- A lease counts as held up to and including its expiry instant. `lock`
  reclaims only when `expireAt < time`. `cleanDeadlocks`, however, deletes at
  `expireAt <= time` (see `Mutex.WakeAtExpiry`).
- `isolateCondRetry` re-invokes the check before every retry, not just once
  (lib/mutex.js:169; see `Mutex.CondRetryRechecks`).
- Two clients that reclaim the same expired lease both succeed at GETSET.
  The loser reports failure, but its expiry replaces the winner's. A third
  client can therefore be granted the lock while the winner still holds it,
  once the loser's shorter lease has passed (`Mutex.ReclaimRaceStolen`).

## Model

| member | source | states |
|---|---|---|
| `Utils.JsObject.Extend` | lib/utils.js:11-22 | Mutates the object in place so that its own properties become `Extended(old, sources)`, and returns the same object. |
| `Utils.ExtendedKeepsOwn` | lib/utils.js:14-17 | A property the object already owns is never changed by `extend`. |
| `Utils.ExtendedKeys` | lib/utils.js:12-19 | Afterwards the object owns exactly its original names plus every name of every argument. |
| `Utils.ExtendedEarliestWins` | lib/utils.js:12-16 | A missing name takes its value from the earliest argument that owns it. |
| `Utils.ExtendedIdempotent` | lib/utils.js:11-21 | Applying `extend` twice with the same arguments gives the same object as applying it once. |
| `Utils.ExtendedCovered` | lib/utils.js:15 | Extending an object that already owns every argument name leaves it unchanged. |
| `Utils.ExtendedEmptyCopies` | lib/mutex.js:35 | `extend({}, o)` is a shallow copy of `o`'s own properties. |
| `Redis.Store.SetNx` | lib/mutex.js:63 | SETNX creates the key only if it is absent and reports whether it did; an error changes nothing. |
| `Redis.Store.Get` | lib/mutex.js:66 | GET replies with the stored value, or null for a missing key. |
| `Redis.Store.GetSet` | lib/mutex.js:70 | GETSET writes the new value and replies with the previous one, or null. |
| `Redis.Store.DelAndPublish` | lib/mutex.js:85-88 | MULTI/DEL/PUBLISH/EXEC deletes the key and appends exactly one message, or does neither. |
| `Redis.Store.KeysWithPrefix` | lib/mutex.js:183 | KEYS replies with each key under the pattern's prefix exactly once. |
| `Redis.Store.MGet` | lib/mutex.js:187 | MGET replies with one value per key asked, in order, null for a missing key. |
| `Redis.Store.Del` | lib/mutex.js:196 | DEL removes exactly the listed keys. |
| `Mutex.DefaultConfig` | lib/mutex.js:46-54 | With no options, the resolved configuration is exactly the defaults: prefix `lock`, ns `default`, redis 127.0.0.1:6379, gcLimit 100. |
| `Mutex.ResolvedSetting` | lib/mutex.js:28-35 | In the configuration `ResolveConfig` resolves, `prefix`, `ns` and `gcLimit` are the caller's option when given, otherwise the default. |
| `Mutex.ResolvedRedis` | lib/mutex.js:30-33 | A caller's `redis` object gets the default host and port filled in; without one, the default connection settings are used. |
| `Mutex.ConfigRejects` | lib/mutex.js:30-31 | `ResolveConfig` fails, so the constructor throws a TypeError exactly when a given `redis` option is neither undefined nor an object. |
| `Mutex.Mutex.constructor` | lib/mutex.js:26-44 | The mutex keeps the resolved configuration. |
| `Mutex.DefaultKeyLayout` | lib/mutex.js:264-270 | With the defaults, the lease of `key` is `lock/default/<key>` and its release channel is `lock/default/<key>/free`. |
| `Mutex.KeyLayout` | lib/mutex.js:264-270 | `GetKey` and `GetPrefix` (`getKey`, `getPrefix`): with string `prefix` and `ns` options, the lease of `key` is `<prefix>/<ns>/<key>`. |
| `Mutex.GetKeyInjective` | lib/mutex.js:264-266 | `GetKey`: distinct lock names map to distinct lease keys, and every lease key lies under the namespace prefix that the garbage collector scans. |
| `Mutex.Mutex.Lock` | lib/mutex.js:56-78 | Issues SETNX, then GET, then GETSET, checking for an error after each; its reply and the new server state are `LockSpec`'s. |
| `Mutex.LockAbsent` | lib/mutex.js:58-65 | On an absent key, `lock` writes `time + lifetime` there and returns locked = true. |
| `Mutex.LockLive` | lib/mutex.js:66-75 | On a lease whose expiry is at or after `time`, `lock` returns locked = false with ttl = `expireAt - time` (not negative) and leaves the data unchanged. |
| `Mutex.LockExpired` | lib/mutex.js:69-73 | On a lease that expired strictly before `time`, with no other client in between, `lock` overwrites it with `time + lifetime` and returns locked = true. |
| `Mutex.LockFrame` | lib/mutex.js:56-78 | `lock` changes no key but its own and publishes nothing. |
| `Mutex.LockError` | lib/mutex.js:63-64 | A failing SETNX goes to the callback as that very error, with no change to the data. |
| `Mutex.LockFailure` | lib/mutex.js:63-73 | Every failure of `lock` is the store error of its SETNX, GET or GETSET round trip. A failed `lock` writes nothing itself and publishes nothing. With three healthy round trips ahead, `lock` does not fail. |
| `Mutex.MutualExclusion` | lib/mutex.js:63-75 | After a successful `lock(key, l)` at `t`, any `lock` on that key at a time in `[t, t + l]` fails. On a healthy connection it reports ttl `t + l - t2`. |
| `Mutex.ReclaimRace` | lib/mutex.js:69-73 | Of two clients reclaiming the same expired lease, the first GETSET wins. The second reports failure with no ttl, yet overwrites the winner's expiry with its own. |
| `Mutex.ReclaimRaceStolen` | lib/mutex.js:63-73 | After that race, a third client that locks after the loser's expiry, but while the winner's lease still runs, is granted the lock. Two clients then both hold it. |
| `Mutex.ReclaimAfterDeletion` | lib/mutex.js:68-73 | If another client deletes the expired lease between GET and GETSET, `lock` reports failure although it has written its own lease. This holds for a nonzero stale expiry: with a stored expiry of 0, GETSET's null reads as 0 and `lock` reports success. |
| `Mutex.WakeAtExpiry` | lib/mutex.js:69-75 | A retry at exactly the reported expiry is refused again, with ttl 0: the lease is held up to and including its expiry instant. |
| `Mutex.Mutex.Free` | lib/mutex.js:80-89 | Its reply and the new server state are `FreeSpec`'s. |
| `Mutex.FreeEffect` | lib/mutex.js:80-89 | `free` removes exactly the lease, appends exactly one `'1'` on `<key>/free` and leaves every other key unchanged. A failed transaction changes nothing. |
| `Mutex.FreeThenLock` | lib/mutex.js:80-89 | After a successful `free`, the next `lock` on the key succeeds. |
| `Mutex.SliceEnd` | lib/mutex.js:191 | The end index of `values.slice(0, gcLimit)` never exceeds the number of values, so the considered prefix is always part of the MGET reply. |
| `Js.NatToString` | lib/mutex.js:269 | The decimal text a numeric `prefix` or `ns` becomes when concatenated: digits only, denoting exactly the number, with no leading zero except for 0 itself. |
| `Mutex.CollectExpired` | lib/mutex.js:190-193 | The `forEach`/`push` loop yields exactly `ExpiredKeys` of the considered values. |
| `Mutex.ExpiredKeysExact` | lib/mutex.js:190-193 | A key is pushed exactly when it sits at a considered position whose value is at or before `time`. |
| `Mutex.ConsideredExpired` | lib/mutex.js:187-193 | Over the MGET reply, the collected keys are exactly the first-`gcLimit` keys whose lease is due; a vanished key reads as 0. |
| `Mutex.Mutex.CleanDeadlocks` | lib/mutex.js:176-203 | On success, exactly the due keys among the first `gcLimit` scanned are deleted. Keys beyond the limit or not yet due are untouched, and an empty key list changes nothing. An empty key list and a scan with nothing due reply `callback()` without error. Any error is the one KEYS, MGET or DEL reported; it reaches the callback unchanged, and then nothing is deleted. It uses one, two or three round trips, as KEYS, MGET and DEL are issued. |
| `Mutex.Mutex.RunLocked` | lib/mutex.js:97-105 | The work's completion arguments reach the callback unchanged, after a release whose own error is only logged. |
| `Mutex.Mutex.Isolate` | lib/mutex.js:91-110 | Its outcome and server state are `Finish`/`Settle` of `IsolateRun`. |
| `Mutex.IsolateOutcome` | lib/mutex.js:95-108 | The work runs exactly when the lock is taken. A lock error goes straight to the callback, a refusal gives `(null, false)`, and a run passes the work's arguments through. |
| `Mutex.Mutex.IsolateRetry` | lib/mutex.js:112-133 | Its outcome and server state are `Finish`/`Settle` of `RetryRun`. |
| `Mutex.RetryEndings` | lib/mutex.js:116-131 | `isolateRetry` never answers `(null, false)`. Its locking phase ends holding the lock, with a store error, or still waiting after one `lock` per attempt. |
| `Mutex.RetryAcquiresAfterExpiry` | lib/mutex.js:116-131 | With a healthy connection and no other client, `isolateRetry` holds the lock by the first attempt after the stored lease expired. |
| `Mutex.Mutex.IsolateCond` | lib/mutex.js:136-145 | Its outcome and server state are `Finish`/`Settle` of `CondRun`. |
| `Mutex.CondOutcome` | lib/mutex.js:140-144 | A check error or non-sentinel result reaches the callback unchanged without touching the lock; the sentinel gives exactly `isolate`. |
| `Mutex.Mutex.IsolateCondRetry` | lib/mutex.js:148-174 | Its outcome and server state are `Finish`/`Settle` of `CondRetryRun`. |
| `Mutex.CondRetryShortCircuit` | lib/mutex.js:152-154 | A check error or non-sentinel result ends `isolateCondRetry` with zero `lock` calls and an unchanged server; the result is passed unchanged. |
| `Mutex.CondRetryContinuing` | lib/mutex.js:148-174 | While every check says continue, `isolateCondRetry` locks exactly as `isolateRetry` does. |
| `Mutex.CondRetryRechecks` | lib/mutex.js:167-171 | After a refused attempt the check runs again, and a value it now answers ends the call. |
| `Mutex.ReleaseScenario` | lib/mutex.js:56-89 | A takes `foo` for 10000 ms at 0. B is refused with ttl 10000. A's `free` publishes on `lock/default/foo/free`. B's retry at 1010 takes the lock with expiry 11010. |

## Left out

- Redis client wiring (`getRedisClient`, `setRedisClient`, `getRedisSubClient`, `setRedisSubClient`, `utils.cloneRedisClient`) and its `instanceof RedisClient` checks: these construct foreign-library objects. A `RedisClient` passed as the `redis` option is not modelled.
- `waitForKey`, its `setTimeout` and the `EventEmitter` fan-out of release messages: timers and pub/sub delivery are asynchronous plumbing. A retry's wait is abstracted as "the next attempt happens". Published messages are recorded in the store's log but not delivered.
- The wall clock (`+new Date`): each attempt's time is a parameter.
- Concurrency is represented only by another client's write or delete between `lock`'s GET and GETSET. No other interleaving is modelled; for example, a key cannot vanish between SETNX and GET, or between KEYS and MGET.
- A command that fails is assumed to have had no effect on the server.
- JavaScript numbers are integers here: no floating point, no `NaN`. `Number(...)` of a non-numeric stored value is not modelled. A non-numeric `lifetime`, which `+` would concatenate, is not modelled either.
- `Mutex.SliceEnd`: a string or object `gcLimit` is taken as `NaN`, that is 0, so numeric strings are not converted.
- Glob characters in `prefix` or `ns`, which Redis KEYS would interpret, are not modelled.
- `Mutex.Mutex.constructor` requires the options to resolve. The TypeError the source throws for a `null` or primitive `redis` option is `ResolveConfig`'s `Fail` result, because a Dafny constructor cannot throw.
- A `null` or primitive `config` passed to the constructor: the options are a property map, so this case is not modelled. In the source, `new Mutex(null)` throws reading `config.redis`, because `typeof null` is `'object'` (lib/mutex.js:28-30). A primitive `config` makes `extend` throw (lib/mutex.js:33).
- `Utils.Extended` and `Utils.JsObject.Extend` take property maps, so a `null` or `undefined` target or argument is not modelled. In the source, `extend` throws a TypeError for such a target at `obj.hasOwnProperty` (lib/utils.js:15), and for such an argument at `Object.getOwnPropertyNames` (lib/utils.js:14).
- The constructor's in-place changes to the caller's `config` and `config.redis` objects, and the sharing of `Mutex.defaults.redis` between instances: the model computes the resolved configuration as a value.
- `Utils.JsObject.Extend`: property descriptors (getters, non-writable properties) are reduced to their values. The arguments are taken as snapshots of their own properties. That only matters if an argument is the target object itself, in which case nothing changes either way.
- `console.error` logging of a failed release, and the default no-op `callback`: the model records what the callback receives.
- Callbacks called more than once: the model lets the work complete at most once (`work: Option<seq<Value>>`) and the check answer once per round. In the source, work that calls its completion callback twice frees the lock again and calls `callback` again (lib/mutex.js:98-104). A check that calls back twice with the sentinel runs `isolate` twice (lib/mutex.js:140-144).
- `waitForKey` resuming twice: when the timer fires (lib/mutex.js:210), the `once` listener (lib/mutex.js:214-217) stays registered. A later release message then calls the callback again and starts a second retry chain. The model's "next attempt" is a single resumption, so it does not capture the duplicate chain.
- A check or work function that throws, or a check that never calls back, is not modelled. Work that never calls its completion callback is modelled: the lock is then never released.
- `examples/isolate.js`: a demo driver.
