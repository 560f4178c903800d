/**
 * The lease-locking protocol of `Mutex`: a lock on a name is a Redis key
 * `<prefix>/<ns>/<name>` holding the expiry timestamp of the lease; `lock`
 * takes it with SETNX or, once the stored lease has expired, with GETSET;
 * `free` deletes it and announces the release on `<key>/free`;
 * `cleanDeadlocks` deletes expired leases; the four `isolate` entry points
 * run caller-supplied work while holding the lock.
 *
 * The clock is a parameter: each lock attempt carries the time it reads.
 * Callbacks are modelled by what they receive: the arguments of the final
 * callback, the check's outcome, and the arguments the work passes to its
 * own completion callback.
 */
module Mutex {
  import opened Js
  import opened Redis
  import Utils

  // ---------------------------------------------------------------------
  // Configuration (`Mutex.defaults` and the constructor)
  // ---------------------------------------------------------------------

  function DefaultRedis(): map<string, Value> {
    map["host" := Str("127.0.0.1"), "port" := Num(6379)]
  }

  function Defaults(): map<string, Value> {
    map["prefix" := Str("lock"), "ns" := Str("default"), "redis" := Obj(DefaultRedis()), "gcLimit" := Num(100)]
  }

  /**
   * The constructor's treatment of the caller's `config`: a `redis` option
   * that is present is filled in from the default connection settings, then
   * every missing option is taken from the defaults, and the mutex keeps a
   * shallow copy. Filling in a `redis` option that is not an object throws.
   */
  function ResolveConfig(options: map<string, Value>): Result<map<string, Value>> {
    var redis := Prop(options, "redis");
    if redis.Undefined? then
      Ok(Utils.Extended(map[], [Utils.Extended(options, [Defaults()])]))
    else if redis.Obj? then
      var withRedis := options["redis" := Obj(Utils.Extended(redis.fields, [DefaultRedis()]))];
      Ok(Utils.Extended(map[], [Utils.Extended(withRedis, [Defaults()])]))
    else
      Fail(TypeError)
  }

  /** With no options at all, the mutex runs on exactly the defaults. */
  lemma DefaultConfig()
    ensures ResolveConfig(map[]) == Ok(Defaults())
  {
    Utils.ExtendedEmptyCopies(Defaults());
  }

  /** `prefix`, `ns` and `gcLimit`: the caller's option when given, otherwise the default. */
  lemma ResolvedSetting(options: map<string, Value>, name: string)
    requires ResolveConfig(options).Ok?
    requires name in Defaults() && name != "redis"
    ensures name in ResolveConfig(options).value
    ensures ResolveConfig(options).value[name] == if name in options then options[name] else Defaults()[name]
  {
    var redis := Prop(options, "redis");
    var base := if redis.Undefined? then options
                else options["redis" := Obj(Utils.Extended(redis.fields, [DefaultRedis()]))];
    Utils.ExtendedEmptyCopies(Utils.Extended(base, [Defaults()]));
    if name in options {
      Utils.ExtendedKeepsOwn(base, [Defaults()]);
    } else {
      Utils.ExtendedEarliestWins(base, [Defaults()], 0, name);
    }
  }

  /** The `redis` option: the caller's settings with host and port filled in, or the default connection. */
  lemma ResolvedRedis(options: map<string, Value>)
    requires ResolveConfig(options).Ok?
    ensures "redis" in ResolveConfig(options).value
    ensures Prop(options, "redis").Obj? ==>
      ResolveConfig(options).value["redis"] == Obj(Utils.Extended(Prop(options, "redis").fields, [DefaultRedis()]))
    ensures "redis" !in options ==> ResolveConfig(options).value["redis"] == Obj(DefaultRedis())
  {
    var redis := Prop(options, "redis");
    var base := if redis.Undefined? then options
                else options["redis" := Obj(Utils.Extended(redis.fields, [DefaultRedis()]))];
    Utils.ExtendedEmptyCopies(Utils.Extended(base, [Defaults()]));
    if "redis" in base {
      Utils.ExtendedKeepsOwn(base, [Defaults()]);
    } else {
      Utils.ExtendedEarliestWins(base, [Defaults()], 0, "redis");
    }
  }

  /** The constructor throws exactly when a given `redis` option is a primitive or `null`. */
  lemma ConfigRejects(options: map<string, Value>)
    ensures ResolveConfig(options).Fail? <==> "redis" in options && !options["redis"].Undefined? && !options["redis"].Obj?
    ensures ResolveConfig(options).Fail? ==> ResolveConfig(options).err == TypeError
  {
  }

  // ---------------------------------------------------------------------
  // Key naming (`getPrefix`, `getKey`, the release channel)
  // ---------------------------------------------------------------------

  function GetPrefix(config: map<string, Value>): string {
    ToStr(Prop(config, "prefix")) + "/" + ToStr(Prop(config, "ns"))
  }

  function GetKey(config: map<string, Value>, key: string): string {
    GetPrefix(config) + "/" + key
  }

  /** The channel a release is announced on. */
  function FreeChannel(fullKey: string): string {
    fullKey + "/free"
  }

  /** With the defaults, the lease of `key` lives at `lock/default/<key>`. */
  lemma DefaultKeyLayout(key: string)
    ensures ResolveConfig(map[]).Ok?
    ensures GetKey(ResolveConfig(map[]).value, key) == "lock/default/" + key
    ensures FreeChannel(GetKey(ResolveConfig(map[]).value, key)) == "lock/default/" + key + "/free"
  {
    DefaultConfig();
  }

  /** With string options `prefix` and `ns`, the lease of `key` lives at `<prefix>/<ns>/<key>`. */
  lemma KeyLayout(options: map<string, Value>, prefix: string, ns: string, key: string)
    requires ResolveConfig(options).Ok?
    requires Prop(options, "prefix") == Str(prefix) && Prop(options, "ns") == Str(ns)
    ensures GetKey(ResolveConfig(options).value, key) == prefix + "/" + ns + "/" + key
  {
    ResolvedSetting(options, "prefix");
    ResolvedSetting(options, "ns");
  }

  /** Distinct lock names have distinct leases, and every lease lies under the namespace's prefix. */
  lemma {:induction false} GetKeyInjective(config: map<string, Value>, a: string, b: string)
    ensures GetPrefix(config) + "/" <= GetKey(config, a)
    ensures GetKey(config, a) == GetKey(config, b) ==> a == b
  {
    var p := GetPrefix(config) + "/";
    assert GetKey(config, a) == p + a;
    assert (p + a)[|p|..] == a;
    assert (p + b)[|p|..] == b;
  }

  // ---------------------------------------------------------------------
  // Lease acquisition (`lock`) and release (`free`)
  // ---------------------------------------------------------------------

  /** What `lock` hands its callback: `(null, locked)` or `(null, false, ttl)`. */
  datatype LockResult = LockResult(locked: bool, ttl: Option<int>)

  /** One operation against the server: its reply and the server afterwards. */
  datatype Step<T> = Step(reply: Result<T>, after: Server)

  predicate Locked(r: Result<LockResult>) {
    r.Ok? && r.value.locked
  }

  /**
   * `lock(key, lifetime)` at clock reading `time`: SETNX the new expiry; if
   * the key exists, GET it; if the stored lease expired strictly before
   * `time`, GETSET the new expiry and report success when GETSET returned
   * the value just read; otherwise report the lease's remaining time.
   * `other` is what another client did to the key between GET and GETSET.
   */
  function LockSpec(srv: Server, fullKey: string, time: int, lifetime: int, other: Interference): Step<LockResult> {
    var lockExpire := time + lifetime;
    var s1 := srv.(link := Rest(srv.link));
    if Fate(srv.link).Some? then Step(Fail(StoreError(Fate(srv.link).value)), s1)
    else if fullKey !in srv.data then Step(Ok(LockResult(true, None)), s1.(data := srv.data[fullKey := lockExpire]))
    else
      var s2 := s1.(link := Rest(s1.link));
      if Fate(s1.link).Some? then Step(Fail(StoreError(Fate(s1.link).value)), s2)
      else
        var expireAt := srv.data[fullKey];
        if expireAt < time then
          var seen := Interfered(srv.data, fullKey, other);
          var s3 := s2.(link := Rest(s2.link), data := seen);
          if Fate(s2.link).Some? then Step(Fail(StoreError(Fate(s2.link).value)), s3)
          else Step(Ok(LockResult(Number(Lookup(seen, fullKey)) == expireAt, None)), s3.(data := seen[fullKey := lockExpire]))
        else
          Step(Ok(LockResult(false, Some(expireAt - time))), s2)
  }

  /** `free(key)`: one MULTI/EXEC that deletes the lease and publishes `'1'` on its release channel. */
  function FreeSpec(srv: Server, fullKey: string): Step<()> {
    var s1 := srv.(link := Rest(srv.link));
    if Fate(srv.link).Some? then Step(Fail(StoreError(Fate(srv.link).value)), s1)
    else Step(Ok(()), s1.(data := srv.data - {fullKey}, published := srv.published + [Message(FreeChannel(fullKey), "1")]))
  }

  /** On an absent key, `lock` writes `time + lifetime` there and succeeds. */
  lemma LockAbsent(srv: Server, fullKey: string, time: int, lifetime: int, other: Interference)
    requires Fate(srv.link).None? && fullKey !in srv.data
    ensures LockSpec(srv, fullKey, time, lifetime, other).reply == Ok(LockResult(true, None))
    ensures LockSpec(srv, fullKey, time, lifetime, other).after.data == srv.data[fullKey := time + lifetime]
  {
  }

  /**
   * On a lease that has not expired (its expiry is at or after `time`),
   * `lock` fails, reports the remaining time, which is not negative, and
   * writes nothing.
   */
  lemma LockLive(srv: Server, fullKey: string, time: int, lifetime: int, other: Interference)
    requires Healthy(srv.link, 2) && fullKey in srv.data && srv.data[fullKey] >= time
    ensures LockSpec(srv, fullKey, time, lifetime, other).reply == Ok(LockResult(false, Some(srv.data[fullKey] - time)))
    ensures srv.data[fullKey] - time >= 0
    ensures LockSpec(srv, fullKey, time, lifetime, other).after.data == srv.data
  {
    assert Fate(srv.link).None?;
    assert Fate(Rest(srv.link)).None? by {
      if |srv.link| > 1 { assert Rest(srv.link)[0] == srv.link[1]; }
    }
  }

  /**
   * On a lease that expired strictly before `time`, with no other client in
   * between, `lock` overwrites it with `time + lifetime` and succeeds: GETSET
   * returns the expiry just read.
   */
  lemma LockExpired(srv: Server, fullKey: string, time: int, lifetime: int)
    requires Healthy(srv.link, 3) && fullKey in srv.data && srv.data[fullKey] < time
    ensures LockSpec(srv, fullKey, time, lifetime, Quiet).reply == Ok(LockResult(true, None))
    ensures LockSpec(srv, fullKey, time, lifetime, Quiet).after.data == srv.data[fullKey := time + lifetime]
  {
    HealthyFates(srv.link, 3);
  }

  /** The first `n` fates of a healthy link are all successes. */
  lemma {:induction false} HealthyFates(link: seq<Option<string>>, n: nat)
    requires Healthy(link, n)
    ensures n >= 1 ==> Fate(link).None?
    ensures n >= 1 ==> Healthy(Rest(link), n - 1)
    ensures n >= 2 ==> Fate(Rest(link)).None?
    ensures n >= 3 ==> Fate(Rest(Rest(link))).None?
  {
    if n >= 1 && |link| > 0 {
      assert forall i :: 0 <= i < n - 1 && i < |Rest(link)| ==> Rest(link)[i] == link[i + 1];
    }
    if n >= 2 && |link| > 1 {
      assert Rest(link)[0] == link[1];
    }
    if n >= 3 && |link| > 2 {
      assert Rest(Rest(link))[0] == link[2];
    }
  }

  /** `lock` touches no key but its own, and publishes nothing. */
  lemma LockFrame(srv: Server, fullKey: string, time: int, lifetime: int, other: Interference, k: string)
    requires k != fullKey
    ensures Lookup(LockSpec(srv, fullKey, time, lifetime, other).after.data, k) == Lookup(srv.data, k)
    ensures LockSpec(srv, fullKey, time, lifetime, other).after.published == srv.published
  {
  }

  /** A failing round trip is reported to the caller as that very error. */
  lemma LockError(srv: Server, fullKey: string, time: int, lifetime: int, other: Interference)
    requires Fate(srv.link).Some?
    ensures LockSpec(srv, fullKey, time, lifetime, other) == Step(Fail(StoreError(Fate(srv.link).value)), srv.(link := Rest(srv.link)))
  {
  }

  /**
   * Any failure of `lock` is the error of one of its three round trips
   * (SETNX, GET, GETSET), handed over as the store reported it; a failed
   * `lock` writes nothing itself and publishes nothing. With three
   * successful round trips ahead, `lock` does not fail.
   */
  lemma LockFailure(srv: Server, fullKey: string, time: int, lifetime: int, other: Interference)
    ensures var s := LockSpec(srv, fullKey, time, lifetime, other);
      s.reply.Fail? ==>
        || (Fate(srv.link).Some? && s.reply.err == StoreError(Fate(srv.link).value))
        || (Fate(Rest(srv.link)).Some? && s.reply.err == StoreError(Fate(Rest(srv.link)).value))
        || (Fate(Rest(Rest(srv.link))).Some? && s.reply.err == StoreError(Fate(Rest(Rest(srv.link))).value))
    ensures var s := LockSpec(srv, fullKey, time, lifetime, other);
      s.reply.Fail? ==>
        && (s.after.data == srv.data || s.after.data == Interfered(srv.data, fullKey, other))
        && s.after.published == srv.published
    ensures Healthy(srv.link, 3) ==> LockSpec(srv, fullKey, time, lifetime, other).reply.Ok?
  {
    if Healthy(srv.link, 3) {
      HealthyFates(srv.link, 3);
    }
  }

  /**
   * Mutual exclusion: once `lock` succeeds at `t` with lifetime `l`, any
   * `lock` on the same key at a time `t2` in `[t, t + l]` fails; on a
   * healthy connection it reports `t + l - t2` as the time left.
   */
  lemma MutualExclusion(srv: Server, fullKey: string, t: int, l: int, other: Interference,
                        t2: int, l2: int, other2: Interference)
    requires Locked(LockSpec(srv, fullKey, t, l, other).reply)
    requires t <= t2 <= t + l
    ensures var first := LockSpec(srv, fullKey, t, l, other);
      !Locked(LockSpec(first.after, fullKey, t2, l2, other2).reply)
    ensures var first := LockSpec(srv, fullKey, t, l, other);
      Healthy(first.after.link, 2) ==>
        LockSpec(first.after, fullKey, t2, l2, other2).reply == Ok(LockResult(false, Some(t + l - t2)))
  {
    var first := LockSpec(srv, fullKey, t, l, other);
    assert fullKey in first.after.data && first.after.data[fullKey] == t + l;
    if Healthy(first.after.link, 2) {
      LockLive(first.after, fullKey, t2, l2, other2);
    }
  }

  /**
   * Two clients that both read the same expired lease race to reclaim it:
   * the one whose GETSET lands first wins, the other sees the winner's
   * expiry instead of the value it read and reports failure, yet its GETSET
   * has already replaced the winner's expiry with its own.
   */
  lemma ReclaimRace(srv: Server, fullKey: string, ta: int, la: int, tb: int, lb: int)
    requires srv.link == [] && fullKey in srv.data
    requires srv.data[fullKey] < ta && srv.data[fullKey] < tb && la >= 0
    ensures LockSpec(srv, fullKey, ta, la, Quiet).reply == Ok(LockResult(true, None))
    ensures LockSpec(srv, fullKey, tb, lb, Overwritten(ta + la)).reply == Ok(LockResult(false, None))
    ensures LockSpec(srv, fullKey, tb, lb, Overwritten(ta + la)).after.data[fullKey] == tb + lb
  {
  }

  /**
   * The aftermath of that race: the winner's lease now ends at the loser's
   * expiry `tb + lb`, so a third client locking at any `tc` after that but
   * while the winner's own lease `ta + la` still runs is granted the lock.
   * Two clients then both believe they hold it.
   */
  lemma ReclaimRaceStolen(srv: Server, fullKey: string, ta: int, la: int, tb: int, lb: int, tc: int, lc: int)
    requires srv.link == [] && fullKey in srv.data
    requires srv.data[fullKey] < ta && srv.data[fullKey] < tb && la >= 0
    requires tb + lb < tc <= ta + la
    ensures Locked(LockSpec(srv, fullKey, ta, la, Quiet).reply)
    ensures var loser := LockSpec(srv, fullKey, tb, lb, Overwritten(ta + la));
      !Locked(loser.reply) && Locked(LockSpec(loser.after, fullKey, tc, lc, Quiet).reply)
  {
    var loser := LockSpec(srv, fullKey, tb, lb, Overwritten(ta + la));
    assert loser.after.link == [] && loser.after.data[fullKey] == tb + lb;
    LockExpired(loser.after, fullKey, tc, lc);
  }

  /**
   * When another client deletes the expired lease between GET and GETSET
   * (a concurrent `cleanDeadlocks`), GETSET answers `null`: `lock` reports
   * failure although it has just written its own lease.
   */
  lemma ReclaimAfterDeletion(srv: Server, fullKey: string, time: int, lifetime: int)
    requires srv.link == [] && fullKey in srv.data && srv.data[fullKey] < time && srv.data[fullKey] != 0
    ensures LockSpec(srv, fullKey, time, lifetime, Deleted).reply == Ok(LockResult(false, None))
    ensures LockSpec(srv, fullKey, time, lifetime, Deleted).after.data == srv.data[fullKey := time + lifetime]
  {
  }

  /**
   * A lease counts as held up to and including its expiry instant: a waiter
   * whose timeout (the reported time left) brings it back exactly at the
   * expiry is refused once more, with no time left.
   */
  lemma WakeAtExpiry(srv: Server, fullKey: string, time: int, lifetime: int, other: Interference)
    requires srv.link == [] && fullKey in srv.data
    requires LockSpec(srv, fullKey, time, lifetime, other).reply.Ok?
    requires LockSpec(srv, fullKey, time, lifetime, other).reply.value.ttl.Some?
    ensures var s := LockSpec(srv, fullKey, time, lifetime, other);
      LockSpec(s.after, fullKey, time + s.reply.value.ttl.value, lifetime, other).reply
        == Ok(LockResult(false, Some(0)))
  {
    var s := LockSpec(srv, fullKey, time, lifetime, other);
    assert s.after.data == srv.data;
    var t2 := time + s.reply.value.ttl.value;
    assert t2 == srv.data[fullKey];
  }

  /**
   * `free` removes exactly the lease and announces it once on the release
   * channel; a failed release changes nothing but the connection.
   */
  lemma FreeEffect(srv: Server, fullKey: string, k: string)
    ensures var s := FreeSpec(srv, fullKey);
      Fate(srv.link).None? ==>
        && s.reply == Ok(())
        && s.after.data == srv.data - {fullKey}
        && fullKey !in s.after.data
        && (k != fullKey ==> Lookup(s.after.data, k) == Lookup(srv.data, k))
        && s.after.published == srv.published + [Message(fullKey + "/free", "1")]
    ensures var s := FreeSpec(srv, fullKey);
      Fate(srv.link).Some? ==> s.reply.Fail? && s.after.data == srv.data && s.after.published == srv.published
  {
  }

  /** After a successful `free`, the next `lock` on the key succeeds at once. */
  lemma FreeThenLock(srv: Server, fullKey: string, time: int, lifetime: int, other: Interference)
    requires Healthy(srv.link, 2)
    ensures Locked(LockSpec(FreeSpec(srv, fullKey).after, fullKey, time, lifetime, other).reply)
  {
    HealthyFates(srv.link, 2);
  }

  // ---------------------------------------------------------------------
  // Garbage collection of expired leases (`cleanDeadlocks`)
  // ---------------------------------------------------------------------

  /**
   * The end index `values.slice(0, limit)` uses on a list of length `n`:
   * a negative limit counts from the end, `undefined` keeps everything,
   * `null`, `false` and values that convert to `NaN` keep nothing.
   */
  function SliceEnd(limit: Value, n: nat): (e: nat)
    ensures e <= n
  {
    match limit
    case Undefined => n
    case Num(k) =>
      if k < 0 then (if n + k < 0 then 0 else n + k)
      else if k < n then k else n
    case Bool(b) => if b && n > 0 then 1 else 0
    case _ => 0
  }

  /** The keys the `forEach` pushes: `keys[i]` for each `values[i]` that is at or before `time`. */
  function ExpiredKeys(keys: seq<string>, values: seq<Option<int>>, time: int): seq<string>
    requires |values| <= |keys|
    decreases |values|
  {
    if |values| == 0 then []
    else
      var i := |values| - 1;
      ExpiredKeys(keys, values[..i], time) + (if Number(values[i]) <= time then [keys[i]] else [])
  }

  /** The `forEach` of `cleanDeadlocks` over the values it considers, filling `expired`. */
  method CollectExpired(keys: seq<string>, values: seq<Option<int>>, time: int) returns (expired: seq<string>)
    requires |values| <= |keys|
    ensures expired == ExpiredKeys(keys, values, time)
  {
    expired := [];
    var i := 0;
    while i < |values|
      invariant 0 <= i <= |values|
      invariant expired == ExpiredKeys(keys, values[..i], time)
    {
      assert values[..i + 1][..i] == values[..i];
      if Number(values[i]) <= time {
        expired := expired + [keys[i]];
      }
      i := i + 1;
    }
    assert values[..|values|] == values;
  }

  /** A key is collected exactly when it sits at a considered position and its value is due. */
  lemma {:induction false} ExpiredKeysExact(keys: seq<string>, values: seq<Option<int>>, time: int)
    requires |values| <= |keys|
    ensures forall k :: k in ExpiredKeys(keys, values, time) <==>
      exists i :: 0 <= i < |values| && keys[i] == k && Number(values[i]) <= time
    decreases |values|
  {
    if |values| > 0 {
      var n := |values| - 1;
      ExpiredKeysExact(keys, values[..n], time);
      forall k
        ensures k in ExpiredKeys(keys, values, time) <==>
          exists i :: 0 <= i < |values| && keys[i] == k && Number(values[i]) <= time
      {
        if k in ExpiredKeys(keys, values, time) {
          if k !in ExpiredKeys(keys, values[..n], time) {
            assert keys[n] == k && Number(values[n]) <= time;
          } else {
            var i :| 0 <= i < n && keys[i] == k && Number(values[..n][i]) <= time;
            assert Number(values[i]) <= time;
          }
        } else {
          forall i | 0 <= i < |values| && keys[i] == k
            ensures Number(values[i]) > time
          {
            if i < n {
              assert values[..n][i] == values[i];
            }
          }
        }
      }
    }
  }

  /**
   * `k` is one of the first `cut` scanned keys and its lease expired at or
   * before `time` (a key that has vanished reads as `null`, that is 0).
   */
  predicate Collected(data: map<string, int>, scanned: seq<string>, cut: nat, time: int, k: string) {
    exists i :: 0 <= i < cut && i < |scanned| && scanned[i] == k && Number(Lookup(data, k)) <= time
  }

  /**
   * Over the MGET reply for the scanned keys, the keys collected from the
   * first `cut` values are exactly the considered keys whose lease is due.
   */
  lemma ConsideredExpired(data: map<string, int>, scanned: seq<string>, values: seq<Option<int>>, cut: nat, time: int)
    requires |values| == |scanned| && cut <= |values|
    requires forall i :: 0 <= i < |scanned| ==> values[i] == Lookup(data, scanned[i])
    ensures forall k :: k in ExpiredKeys(scanned, values[..cut], time) <==> Collected(data, scanned, cut, time, k)
  {
    var considered := values[..cut];
    ExpiredKeysExact(scanned, considered, time);
    forall k
      ensures k in ExpiredKeys(scanned, considered, time) <==> Collected(data, scanned, cut, time, k)
    {
      if k in ExpiredKeys(scanned, considered, time) {
        var i :| 0 <= i < |considered| && scanned[i] == k && Number(considered[i]) <= time;
        assert considered[i] == Lookup(data, scanned[i]);
        assert i < cut && i < |scanned| && scanned[i] == k && Number(Lookup(data, k)) <= time;
      }
      if Collected(data, scanned, cut, time, k) {
        var i :| 0 <= i < cut && i < |scanned| && scanned[i] == k && Number(Lookup(data, k)) <= time;
        assert considered[i] == Lookup(data, scanned[i]);
        assert 0 <= i < |considered| && scanned[i] == k && Number(considered[i]) <= time;
      }
    }
  }

  // ---------------------------------------------------------------------
  // Isolation: the four entry points
  // ---------------------------------------------------------------------

  /** One lock attempt: the clock reading it takes and what another client does during it. */
  datatype Attempt = Attempt(time: int, other: Interference)

  /** The result a conditional check passes: the continue sentinel, or any other value. */
  datatype Verdict = Continue | Answer(result: Value)

  /** What the check hands its callback: `(err, result)`. */
  datatype Check = Check(err: Value, verdict: Verdict)

  /** One round of `isolateCondRetry`: the check's outcome, then the lock attempt. */
  datatype Round = Round(check: Check, attempt: Attempt)

  /**
   * How an entry point's locking phase ends: still waiting for a release,
   * replying to the callback without running the work, or holding the lock.
   */
  datatype Ending = Waiting | Replied(args: seq<Value>) | Acquired

  /** A locking phase: how it ends, how many times it called `lock`, the server afterwards. */
  datatype Run = Run(ending: Ending, locks: nat, after: Server)

  /**
   * What the caller observes: whether the work ran, and the arguments of the
   * final callback (`None` while it has not been called).
   */
  datatype Isolation = Isolation(ran: bool, reply: Option<seq<Value>>)

  /** The reply a check short-circuits with, or `None` when it says continue. */
  function CheckGate(c: Check): Option<seq<Value>> {
    if Truthy(c.err) then Some([c.err])
    else if c.verdict.Answer? then Some([Null, c.verdict.result])
    else None
  }

  /** `isolate`'s single lock attempt. */
  function IsolateRun(srv: Server, fullKey: string, lifetime: int, at: Attempt): Run {
    var s := LockSpec(srv, fullKey, at.time, lifetime, at.other);
    if s.reply.Fail? then Run(Replied([s.reply.err]), 1, s.after)
    else if s.reply.value.locked then Run(Acquired, 1, s.after)
    else Run(Replied([Null, Bool(false)]), 1, s.after)
  }

  /**
   * `isolateRetry`'s lock attempts: every refusal waits for the release
   * channel or the reported time left (abstracted as the next attempt) and
   * tries again. `attempts` are the attempts that happen.
   */
  function RetryRun(srv: Server, fullKey: string, lifetime: int, attempts: seq<Attempt>): Run
    decreases |attempts|
  {
    if |attempts| == 0 then Run(Waiting, 0, srv)
    else
      var s := LockSpec(srv, fullKey, attempts[0].time, lifetime, attempts[0].other);
      if s.reply.Fail? then Run(Replied([s.reply.err]), 1, s.after)
      else if s.reply.value.locked then Run(Acquired, 1, s.after)
      else
        var rest := RetryRun(s.after, fullKey, lifetime, attempts[1..]);
        rest.(locks := rest.locks + 1)
  }

  /** `isolateCond`: the check, then `isolate`. */
  function CondRun(srv: Server, fullKey: string, lifetime: int, check: Check, at: Attempt): Run {
    match CheckGate(check)
    case Some(args) => Run(Replied(args), 0, srv)
    case None => IsolateRun(srv, fullKey, lifetime, at)
  }

  /** `isolateCondRetry`: each round runs the check again, then one lock attempt. */
  function CondRetryRun(srv: Server, fullKey: string, lifetime: int, rounds: seq<Round>): Run
    decreases |rounds|
  {
    if |rounds| == 0 then Run(Waiting, 0, srv)
    else match CheckGate(rounds[0].check)
      case Some(args) => Run(Replied(args), 0, srv)
      case None =>
        var at := rounds[0].attempt;
        var s := LockSpec(srv, fullKey, at.time, lifetime, at.other);
        if s.reply.Fail? then Run(Replied([s.reply.err]), 1, s.after)
        else if s.reply.value.locked then Run(Acquired, 1, s.after)
        else
          var rest := CondRetryRun(s.after, fullKey, lifetime, rounds[1..]);
          rest.(locks := rest.locks + 1)
  }

  /**
   * What the caller observes once the locking phase ended: with the lock
   * held, the work runs and its completion arguments reach the callback
   * unchanged (whatever the release does); otherwise the work does not run.
   * `work` is what the work passes to its completion callback, `None` if it
   * never calls it.
   */
  function Finish(e: Ending, work: Option<seq<Value>>): Isolation {
    match e
    case Waiting => Isolation(false, None)
    case Replied(args) => Isolation(false, Some(args))
    case Acquired => Isolation(true, work)
  }

  /** The server once the work has completed and the lease has been released. */
  function Settle(run: Run, fullKey: string, work: Option<seq<Value>>): Server {
    if run.ending.Acquired? && work.Some? then FreeSpec(run.after, fullKey).after else run.after
  }

  /** `isolate`: the work runs exactly when the lock was taken; otherwise `(err)` or `(null, false)`. */
  lemma IsolateOutcome(srv: Server, fullKey: string, lifetime: int, at: Attempt, work: Option<seq<Value>>)
    ensures var s := LockSpec(srv, fullKey, at.time, lifetime, at.other);
      var out := Finish(IsolateRun(srv, fullKey, lifetime, at).ending, work);
      && (out.ran <==> Locked(s.reply))
      && (s.reply.Fail? ==> out.reply == Some([s.reply.err]))
      && (s.reply.Ok? && !s.reply.value.locked ==> out.reply == Some([Null, Bool(false)]))
      && (out.ran ==> out.reply == work)
  {
  }

  /**
   * `isolateRetry` never answers `(null, false)`: the locking phase ends by
   * holding the lock, by a store error, or keeps waiting; it calls `lock`
   * once per attempt until then.
   */
  lemma {:induction false} RetryEndings(srv: Server, fullKey: string, lifetime: int, attempts: seq<Attempt>)
    ensures var run := RetryRun(srv, fullKey, lifetime, attempts);
      && run.locks <= |attempts|
      && (run.ending.Waiting? ==> run.locks == |attempts|)
      && (run.ending.Replied? ==> exists m :: run.ending.args == [StoreError(m)])
    decreases |attempts|
  {
    if |attempts| > 0 {
      var s := LockSpec(srv, fullKey, attempts[0].time, lifetime, attempts[0].other);
      if s.reply.Fail? {
        var m :| s.reply.err == StoreError(m);
        assert RetryRun(srv, fullKey, lifetime, attempts).ending.args == [StoreError(m)];
      } else if !s.reply.value.locked {
        RetryEndings(s.after, fullKey, lifetime, attempts[1..]);
      }
    }
  }

  /**
   * With a healthy connection and no other client, `isolateRetry` holds the
   * lock at the latest by the first attempt made after the stored lease
   * expired: a refusal changes nothing on the server.
   */
  lemma {:induction false} RetryAcquiresAfterExpiry(srv: Server, fullKey: string, lifetime: int, attempts: seq<Attempt>, j: nat)
    requires srv.link == []
    requires j < |attempts|
    requires forall i :: 0 <= i < |attempts| ==> attempts[i].other == Quiet
    requires fullKey !in srv.data || srv.data[fullKey] < attempts[j].time
    ensures RetryRun(srv, fullKey, lifetime, attempts).ending == Acquired
    ensures RetryRun(srv, fullKey, lifetime, attempts).locks <= j + 1
    decreases j
  {
    var s := LockSpec(srv, fullKey, attempts[0].time, lifetime, attempts[0].other);
    if !Locked(s.reply) {
      assert s.after == srv;
      assert attempts[1..][j - 1] == attempts[j];
      RetryAcquiresAfterExpiry(srv, fullKey, lifetime, attempts[1..], j - 1);
    }
  }

  /** A check that errs or answers anything but the sentinel ends `isolateCondRetry` without touching the lock. */
  lemma CondRetryShortCircuit(srv: Server, fullKey: string, lifetime: int, rounds: seq<Round>)
    requires |rounds| > 0 && CheckGate(rounds[0].check).Some?
    ensures CondRetryRun(srv, fullKey, lifetime, rounds) == Run(Replied(CheckGate(rounds[0].check).value), 0, srv)
    ensures rounds[0].check.verdict.Answer? && !Truthy(rounds[0].check.err) ==>
      CondRetryRun(srv, fullKey, lifetime, rounds).ending == Replied([Null, rounds[0].check.verdict.result])
  {
  }

  /** The same for `isolateCond`; with the sentinel it is exactly `isolate`. */
  lemma CondOutcome(srv: Server, fullKey: string, lifetime: int, check: Check, at: Attempt)
    ensures CheckGate(check).Some? ==> CondRun(srv, fullKey, lifetime, check, at) == Run(Replied(CheckGate(check).value), 0, srv)
    ensures !Truthy(check.err) && check.verdict.Continue? ==>
      CondRun(srv, fullKey, lifetime, check, at) == IsolateRun(srv, fullKey, lifetime, at)
  {
  }

  /** The lock attempts of a sequence of rounds, in order. */
  function AttemptsOf(rounds: seq<Round>): seq<Attempt>
  {
    seq(|rounds|, i requires 0 <= i < |rounds| => rounds[i].attempt)
  }

  /** While every check says continue, `isolateCondRetry` locks exactly as `isolateRetry` does. */
  lemma {:induction false} CondRetryContinuing(srv: Server, fullKey: string, lifetime: int, rounds: seq<Round>)
    requires forall i :: 0 <= i < |rounds| ==> CheckGate(rounds[i].check).None?
    ensures CondRetryRun(srv, fullKey, lifetime, rounds) == RetryRun(srv, fullKey, lifetime, AttemptsOf(rounds))
    decreases |rounds|
  {
    if |rounds| > 0 {
      var s := LockSpec(srv, fullKey, rounds[0].attempt.time, lifetime, rounds[0].attempt.other);
      assert AttemptsOf(rounds)[1..] == AttemptsOf(rounds[1..]);
      if Locked(s.reply) || s.reply.Fail? {
      } else {
        CondRetryContinuing(s.after, fullKey, lifetime, rounds[1..]);
      }
    }
  }

  /**
   * `isolateCondRetry` runs the check again before every retry: after a
   * refused attempt, a check that now answers a value ends the call with it.
   */
  lemma CondRetryRechecks(srv: Server, fullKey: string, lifetime: int, rounds: seq<Round>, v: Value)
    requires |rounds| >= 2
    requires CheckGate(rounds[0].check).None?
    requires rounds[1].check == Check(Null, Answer(v))
    requires var at := rounds[0].attempt;
      var s := LockSpec(srv, fullKey, at.time, lifetime, at.other);
      s.reply.Ok? && !s.reply.value.locked
    ensures CondRetryRun(srv, fullKey, lifetime, rounds).ending == Replied([Null, v])
    ensures CondRetryRun(srv, fullKey, lifetime, rounds).locks == 1
  {
    assert rounds[1..][0] == rounds[1];
  }

  /**
   * The release scenario: A takes `foo` for 10000 ms at time 0; B, trying at
   * once, is told to wait 10000 ms; A's work ends at 1000 and `free`
   * announces the release; B's retry at 1010 takes the lock.
   */
  lemma ReleaseScenario(data: map<string, int>)
    requires ResolveConfig(map[]).Ok?
    requires GetKey(ResolveConfig(map[]).value, "foo") !in data
    ensures var k := GetKey(ResolveConfig(map[]).value, "foo");
      var srv := Server(data, [], []);
      var a := LockSpec(srv, k, 0, 10000, Quiet);
      var b := LockSpec(a.after, k, 0, 10000, Quiet);
      var freed := FreeSpec(b.after, k);
      var b2 := RetryRun(freed.after, k, 10000, [Attempt(1010, Quiet)]);
      && a.reply == Ok(LockResult(true, None))
      && b.reply == Ok(LockResult(false, Some(10000)))
      && freed.after.published == [Message("lock/default/foo/free", "1")]
      && b2.ending == Acquired
      && b2.after.data[k] == 11010
  {
    DefaultKeyLayout("foo");
    assert "lock/default/" + "foo" + "/free" == "lock/default/foo/free";
  }

  // ---------------------------------------------------------------------
  // The mutex object
  // ---------------------------------------------------------------------

  class Mutex {
    const config: map<string, Value>
    const redis: Store

    /** `new Mutex(options)` on a connection to `redis`; see `ResolveConfig` for the options. */
    constructor(options: map<string, Value>, redis: Store)
      requires ResolveConfig(options).Ok?
      ensures config == ResolveConfig(options).value && this.redis == redis
    {
      config := ResolveConfig(options).value;
      this.redis := redis;
    }

    method Lock(key: string, lifetime: int, at: Attempt) returns (r: Result<LockResult>)
      modifies redis
      ensures var s := LockSpec(old(redis.State()), GetKey(config, key), at.time, lifetime, at.other);
        r == s.reply && redis.State() == s.after
    {
      var fullKey := GetKey(config, key);
      var time := at.time;
      var lockExpire := time + lifetime;
      var created := redis.SetNx(fullKey, lockExpire);
      if created.Fail? {
        return Fail(created.err);
      }
      if created.value {
        return Ok(LockResult(true, None));
      }
      var expireAt := redis.Get(fullKey);
      if expireAt.Fail? {
        return Fail(expireAt.err);
      }
      var intExpireAt := Number(expireAt.value);
      if intExpireAt < time {
        redis.Interleave(fullKey, at.other);
        var prior := redis.GetSet(fullKey, lockExpire);
        if prior.Fail? {
          return Fail(prior.err);
        }
        return Ok(LockResult(Number(prior.value) == intExpireAt, None));
      }
      r := Ok(LockResult(false, Some(intExpireAt - time)));
    }

    method Free(key: string) returns (r: Result<()>)
      modifies redis
      ensures var s := FreeSpec(old(redis.State()), GetKey(config, key));
        r == s.reply && redis.State() == s.after
    {
      var fullKey := GetKey(config, key);
      r := redis.DelAndPublish(fullKey, FreeChannel(fullKey), "1");
    }

    /**
     * With the lock held: run the work; once it calls its completion
     * callback, release the lock (an error there is only logged) and pass
     * the work's arguments on.
     */
    method RunLocked(key: string, work: Option<seq<Value>>) returns (out: Isolation)
      modifies redis
      ensures out == Isolation(true, work)
      ensures redis.State() == if work.Some? then FreeSpec(old(redis.State()), GetKey(config, key)).after else old(redis.State())
    {
      if work.Some? {
        var released := Free(key);
      }
      out := Isolation(true, work);
    }

    method Isolate(key: string, lifetime: int, at: Attempt, work: Option<seq<Value>>) returns (out: Isolation)
      modifies redis
      ensures var run := IsolateRun(old(redis.State()), GetKey(config, key), lifetime, at);
        out == Finish(run.ending, work) && redis.State() == Settle(run, GetKey(config, key), work)
    {
      var r := Lock(key, lifetime, at);
      if r.Fail? {
        return Isolation(false, Some([r.err]));
      }
      if r.value.locked {
        out := RunLocked(key, work);
      } else {
        out := Isolation(false, Some([Null, Bool(false)]));
      }
    }

    /** `attempts` are the attempts that happen; when they run out the call is still waiting. */
    method IsolateRetry(key: string, lifetime: int, attempts: seq<Attempt>, work: Option<seq<Value>>) returns (out: Isolation)
      modifies redis
      ensures var run := RetryRun(old(redis.State()), GetKey(config, key), lifetime, attempts);
        out == Finish(run.ending, work) && redis.State() == Settle(run, GetKey(config, key), work)
      decreases |attempts|
    {
      if |attempts| == 0 {
        return Isolation(false, None);
      }
      var r := Lock(key, lifetime, attempts[0]);
      if r.Fail? {
        return Isolation(false, Some([r.err]));
      }
      if r.value.locked {
        out := RunLocked(key, work);
      } else {
        // waitForKey(key, ttl): resumed by the release message or the timeout
        out := IsolateRetry(key, lifetime, attempts[1..], work);
      }
    }

    method IsolateCond(key: string, lifetime: int, check: Check, at: Attempt, work: Option<seq<Value>>) returns (out: Isolation)
      modifies redis
      ensures var run := CondRun(old(redis.State()), GetKey(config, key), lifetime, check, at);
        out == Finish(run.ending, work) && redis.State() == Settle(run, GetKey(config, key), work)
    {
      if Truthy(check.err) {
        return Isolation(false, Some([check.err]));
      }
      if check.verdict.Continue? {
        out := Isolate(key, lifetime, at, work);
        return;
      }
      out := Isolation(false, Some([Null, check.verdict.result]));
    }

    /** `rounds` are the rounds that happen; each runs the check and, if it continues, one lock attempt. */
    method IsolateCondRetry(key: string, lifetime: int, rounds: seq<Round>, work: Option<seq<Value>>) returns (out: Isolation)
      modifies redis
      ensures var run := CondRetryRun(old(redis.State()), GetKey(config, key), lifetime, rounds);
        out == Finish(run.ending, work) && redis.State() == Settle(run, GetKey(config, key), work)
      decreases |rounds|
    {
      if |rounds| == 0 {
        return Isolation(false, None);
      }
      var check := rounds[0].check;
      if Truthy(check.err) {
        return Isolation(false, Some([check.err]));
      }
      if check.verdict.Answer? {
        return Isolation(false, Some([Null, check.verdict.result]));
      }
      var r := Lock(key, lifetime, rounds[0].attempt);
      if r.Fail? {
        return Isolation(false, Some([r.err]));
      }
      if r.value.locked {
        out := RunLocked(key, work);
      } else {
        out := IsolateCondRetry(key, lifetime, rounds[1..], work);
      }
    }

    /**
     * `cleanDeadlocks` at clock reading `time`: KEYS on every key under `<prefix>/<ns>/`, then
     * MGET their expiries, then DEL those among the first `gcLimit` that are
     * at or before `time`. Returns the keys scanned and the keys found
     * expired besides the callback's outcome.
     */
    method CleanDeadlocks(time: int) returns (r: Result<()>, scanned: seq<string>, expired: seq<string>)
      modifies redis
      ensures redis.published == old(redis.published)
      ensures Fate(old(redis.link)).Some? ==> r == Fail(StoreError(Fate(old(redis.link)).value)) && scanned == []
      ensures Fate(old(redis.link)).None? ==>
        forall k :: k in scanned <==> k in old(redis.data) && GetPrefix(config) + "/" <= k
      ensures forall i, j :: 0 <= i < j < |scanned| ==> scanned[i] != scanned[j]
      ensures r.Ok? ==> forall k :: k in expired <==>
        Collected(old(redis.data), scanned, SliceEnd(Prop(config, "gcLimit"), |scanned|), time, k)
      ensures r.Ok? ==> redis.data == old(redis.data) - (set k | k in expired)
      ensures r.Fail? ==> redis.data == old(redis.data)
      ensures Fate(old(redis.link)).None? && |scanned| > 0 && Fate(Rest(old(redis.link))).Some? ==>
        r == Fail(StoreError(Fate(Rest(old(redis.link))).value))
      ensures |expired| > 0 && Fate(Rest(Rest(old(redis.link)))).Some? ==>
        r == Fail(StoreError(Fate(Rest(Rest(old(redis.link)))).value))
      ensures Fate(old(redis.link)).None? && Fate(Rest(old(redis.link))).None? && Fate(Rest(Rest(old(redis.link)))).None? ==> r.Ok?
      ensures Fate(old(redis.link)).None? && |scanned| == 0 ==> r == Ok(())
      ensures Fate(old(redis.link)).None? && |scanned| > 0 && Fate(Rest(old(redis.link))).None? ==>
        forall k :: k in expired <==>
          Collected(old(redis.data), scanned, SliceEnd(Prop(config, "gcLimit"), |scanned|), time, k)
      ensures Fate(old(redis.link)).None? && |scanned| > 0 && Fate(Rest(old(redis.link))).None? && |expired| == 0 ==>
        r == Ok(())
      ensures r.Fail? ==>
        || (Fate(old(redis.link)).Some? && r.err == StoreError(Fate(old(redis.link)).value))
        || (Fate(Rest(old(redis.link))).Some? && r.err == StoreError(Fate(Rest(old(redis.link))).value))
        || (Fate(Rest(Rest(old(redis.link)))).Some? && r.err == StoreError(Fate(Rest(Rest(old(redis.link)))).value))
      ensures |scanned| == 0 ==> redis.link == Rest(old(redis.link))
      ensures |scanned| > 0 && |expired| == 0 ==> redis.link == Rest(Rest(old(redis.link)))
      ensures |expired| > 0 ==> redis.link == Rest(Rest(Rest(old(redis.link))))
    {
      var keys := redis.KeysWithPrefix(GetPrefix(config) + "/");
      if keys.Fail? {
        return Fail(keys.err), [], [];
      }
      scanned := keys.value;
      if |scanned| == 0 {
        return Ok(()), scanned, [];
      }
      var values := redis.MGet(scanned);
      if values.Fail? {
        return Fail(values.err), scanned, [];
      }
      var cut := SliceEnd(Prop(config, "gcLimit"), |values.value|);
      var considered := values.value[..cut];
      expired := CollectExpired(scanned, considered, time);
      ConsideredExpired(old(redis.data), scanned, values.value, cut, time);
      if |expired| == 0 {
        assert (set k | k in expired) == {};
        return Ok(()), scanned, expired;
      }
      var deleted := redis.Del(expired);
      if deleted.Fail? {
        return Fail(deleted.err), scanned, expired;
      }
      r := Ok(());
    }
  }
}
