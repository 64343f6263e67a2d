/**
 * `CacheStorageAdapter` (src/Adapter/CacheStorageAdapter.php): the breaker
 * over a shared TTL cache. A logical key `k` is stored under two cache keys,
 * `{prefix}:{k}:failures` (the failure count) and `{prefix}:{k}:last_failure`
 * (the last failure time, in whole seconds). Expiry of a failure streak and of
 * the whole record is decided by comparing that timestamp, turned back into
 * milliseconds, with `now`, on top of the cache's own TTL.
 *
 * `IsOpen` returning true means calls are ALLOWED.
 */
module CacheStorage {
  import opened Wrappers
  import opened Configuration
  import opened CacheRepository
  import opened FailureTimes

  const FailuresSuffix: string := ":failures"
  const LastFailureSuffix: string := ":last_failure"

  /** `resolveKey`: the prefix, a colon, the logical key. */
  function ResolveKey(prefix: string, key: string): (r: string)
    ensures |r| == |prefix| + 1 + |key|
    ensures r[..|prefix|] == prefix && r[|prefix|] == ':' && r[|prefix| + 1..] == key
  {
    prefix + ":" + key
  }

  /** `resolveFailuresKey`: ends in `s`, unlike every last-failure key. */
  function FailuresKey(prefix: string, key: string): (r: string)
    ensures |r| == |prefix| + |key| + 10 && r[|r| - 1] == 's'
  {
    ResolveKey(prefix, key) + FailuresSuffix
  }

  /** `resolveLastFailureKey`: ends in `e`. */
  function LastFailureKey(prefix: string, key: string): (r: string)
    ensures |r| == |prefix| + |key| + 14 && r[|r| - 1] == 'e'
  {
    ResolveKey(prefix, key) + LastFailureSuffix
  }

  /** `Carbon::now()->timestamp`: whole seconds, rounded down. */
  function Seconds(now: int): int {
    now / 1000
  }

  function Abs(x: int): nat {
    if x < 0 then -x else x
  }

  /** The TTL of both writes of `recordFailure`: `diffAsDateInterval` with
      `absolute: true` between now and now plus `timeout` ms. */
  function FailureTtl(cfg: CacheConfig): nat {
    Abs(cfg.timeout)
  }

  /** The stored last-failure timestamp, 0 when missing. */
  function StoredTimestamp(cfg: CacheConfig, s: Store, key: string, now: int): int {
    Lookup(s, LastFailureKey(cfg.keyPrefix, key), now).GetOr(0)
  }

  /** `isLastFailureExpiredFromCounter`: more than `timeout` ms have passed
      since the stored timestamp. A missing timestamp reads as 0, the epoch,
      so it counts as expired for any later `now`. */
  predicate ExpiredFromCounter(cfg: CacheConfig, s: Store, key: string, now: int) {
    now > StoredTimestamp(cfg, s, key, now) * 1000 + cfg.timeout
  }

  /** `isLastFailureExpiredForReset`: a non-zero stored timestamp more than
      `resetTimeout` ms in the past. */
  predicate ExpiredForReset(cfg: CacheConfig, s: Store, key: string, now: int) {
    var ts := StoredTimestamp(cfg, s, key, now);
    ts != 0 && now > ts * 1000 + cfg.resetTimeout
  }

  /** The store without the two cache keys of `key`. */
  function ForgetBoth(cfg: CacheConfig, s: Store, key: string): Store {
    s - {FailuresKey(cfg.keyPrefix, key), LastFailureKey(cfg.keyPrefix, key)}
  }

  /** The store after `reset(key)`. */
  function AfterReset(cfg: CacheConfig, s: Store, key: string, now: int): Store {
    if cfg.enabled && ExpiredForReset(cfg, s, key, now) then ForgetBoth(cfg, s, key) else s
  }

  /** The store after `forceReset(key)`, and so after `recordSuccess(key)`. */
  function AfterForceReset(cfg: CacheConfig, s: Store, key: string): Store {
    if cfg.enabled then ForgetBoth(cfg, s, key) else s
  }

  /** What `isOpen(key)` answers on store `s`: after the conditional reset,
      allowed when the count (default 0) is below the threshold or the
      timestamp is missing. */
  predicate Allows(cfg: CacheConfig, s: Store, key: string, now: int) {
    var s1 := AfterReset(cfg, s, key, now);
    || !cfg.enabled
    || Lookup(s1, FailuresKey(cfg.keyPrefix, key), now).GetOr(0) < cfg.failureThreshold
    || Lookup(s1, LastFailureKey(cfg.keyPrefix, key), now).None?
  }

  /** The count `recordFailure` writes, read from the store left by its reset. */
  function NextCount(cfg: CacheConfig, s1: Store, key: string, now: int): int {
    var previous := Lookup(s1, FailuresKey(cfg.keyPrefix, key), now).GetOr(0);
    if previous > 0 && ExpiredFromCounter(cfg, s1, key, now) then 1 else previous + 1
  }

  /** The store after `recordFailure(key)`. */
  function AfterFailure(cfg: CacheConfig, s: Store, key: string, now: int): Store {
    if !cfg.enabled then s
    else
      var s1 := AfterReset(cfg, s, key, now);
      var s2 := Stored(s1, FailuresKey(cfg.keyPrefix, key), NextCount(cfg, s1, key, now), FailureTtl(cfg), now);
      Stored(s2, LastFailureKey(cfg.keyPrefix, key), Seconds(now), FailureTtl(cfg), now)
  }

  class CacheStorageAdapter {
    const config: CacheConfig
    /** The store `Cache::store($config->getCacheConnection())` resolves to. */
    const repository: Repository

    constructor (config: CacheConfig, repository: Repository)
      ensures this.config == config && this.repository == repository
    {
      this.config := config;
      this.repository := repository;
    }

    /** `isOpen`: applies the conditional reset, then decides. */
    method IsOpen(key: string, now: int) returns (open: bool)
      modifies repository
      ensures open == Allows(config, old(repository.items), key, now)
      ensures repository.items == AfterReset(config, old(repository.items), key, now)
    {
      if !config.enabled {
        return true;
      }
      Reset(key, now);
      var failures := repository.Get(FailuresKey(config.keyPrefix, key), now);
      if failures.GetOr(0) < config.failureThreshold {
        return true;
      }
      var lastFailure := repository.Get(LastFailureKey(config.keyPrefix, key), now);
      if lastFailure.None? {
        return true;
      }
      return false;
    }

    /** `recordFailure`: conditional reset, then writes the new count and the
      current time in seconds, both with TTL `|timeout|` ms. */
    method RecordFailure(key: string, now: int)
      modifies repository
      ensures repository.items == AfterFailure(config, old(repository.items), key, now)
    {
      if !config.enabled {
        return;
      }
      Reset(key, now);
      var failuresKey := FailuresKey(config.keyPrefix, key);
      var stored := repository.Get(failuresKey, now);
      var failures := stored.GetOr(0);
      var ttl := FailureTtl(config);
      if failures > 0 {
        var expired := IsLastFailureExpiredFromCounter(key, now);
        if expired {
          failures := 0;
        }
      }
      repository.Set(failuresKey, failures + 1, ttl, now);
      repository.Set(LastFailureKey(config.keyPrefix, key), Seconds(now), ttl, now);
    }

    /** `recordSuccess`: delegates to `forceReset`. */
    method RecordSuccess(key: string)
      modifies repository
      ensures repository.items == AfterForceReset(config, old(repository.items), key)
    {
      if !config.enabled {
        return;
      }
      ForceReset(key);
    }

    /** `reset`: forgets both cache keys only once the record is stale. */
    method Reset(key: string, now: int)
      modifies repository
      ensures repository.items == AfterReset(config, old(repository.items), key, now)
    {
      if !config.enabled {
        return;
      }
      var expired := IsLastFailureExpiredForReset(key, now);
      if expired {
        repository.Forget(FailuresKey(config.keyPrefix, key));
        repository.Forget(LastFailureKey(config.keyPrefix, key));
      }
    }

    /** `forceReset`: forgets both cache keys. */
    method ForceReset(key: string)
      modifies repository
      ensures repository.items == AfterForceReset(config, old(repository.items), key)
    {
      if !config.enabled {
        return;
      }
      repository.Forget(FailuresKey(config.keyPrefix, key));
      repository.Forget(LastFailureKey(config.keyPrefix, key));
    }

    method IsLastFailureExpiredFromCounter(key: string, now: int) returns (expired: bool)
      ensures expired <==>
        now > Lookup(repository.items, LastFailureKey(config.keyPrefix, key), now).GetOr(0) * 1000 + config.timeout
    {
      var lastFailure := repository.Get(ResolveKey(config.keyPrefix, key) + LastFailureSuffix, now);
      var lastFailureTimestamp := lastFailure.GetOr(0);
      expired := now > lastFailureTimestamp * 1000 + config.timeout;
    }

    method IsLastFailureExpiredForReset(key: string, now: int) returns (expired: bool)
      ensures expired <==>
        var ts := Lookup(repository.items, LastFailureKey(config.keyPrefix, key), now).GetOr(0);
        ts != 0 && now > ts * 1000 + config.resetTimeout
    {
      var lastFailure := repository.Get(LastFailureKey(config.keyPrefix, key), now);
      var lastFailureTimestamp := lastFailure.GetOr(0);
      if lastFailureTimestamp == 0 {
        return false;
      }
      return now > lastFailureTimestamp * 1000 + config.resetTimeout;
    }
  }

  // ---------------------------------------------------------------- lemmas

  /** The cache keys are exactly `prefix:key:failures` and
      `prefix:key:last_failure`; with the default prefix the colon doubles. */
  lemma StorageKeyFormat(prefix: string, key: string)
    ensures FailuresKey(prefix, key) == prefix + ":" + key + ":failures"
    ensures LastFailureKey(prefix, key) == prefix + ":" + key + ":last_failure"
    ensures FailuresKey(DefaultKeyPrefix, "svc") == "circuit-breaker::svc:failures"
  {
  }

  /** Under one prefix, no failures key is a last-failure key, and distinct
      logical keys get distinct cache keys. */
  lemma {:induction false} StorageKeysDistinct(prefix: string, a: string, b: string)
    ensures FailuresKey(prefix, a) != LastFailureKey(prefix, b)
    ensures a != b ==> FailuresKey(prefix, a) != FailuresKey(prefix, b)
    ensures a != b ==> LastFailureKey(prefix, a) != LastFailureKey(prefix, b)
  {
    var fa, lb := FailuresKey(prefix, a), LastFailureKey(prefix, b);
    assert fa[|fa| - 1] == 's' by { assert fa == ResolveKey(prefix, a) + FailuresSuffix; }
    assert lb[|lb| - 1] == 'e' by { assert lb == ResolveKey(prefix, b) + LastFailureSuffix; }
    if FailuresKey(prefix, a) == FailuresKey(prefix, b) {
      SuffixedKeysInjective(prefix, a, b, FailuresSuffix);
    }
    if LastFailureKey(prefix, a) == LastFailureKey(prefix, b) {
      SuffixedKeysInjective(prefix, a, b, LastFailureSuffix);
    }
  }

  lemma SuffixedKeysInjective(prefix: string, a: string, b: string, suffix: string)
    requires ResolveKey(prefix, a) + suffix == ResolveKey(prefix, b) + suffix
    ensures a == b
  {
    var x := ResolveKey(prefix, a) + suffix;
    assert |a| == |b|;
    var lo := |prefix| + 1;
    assert x[lo..lo + |a|] == a;
    assert x[lo..lo + |b|] == b;
  }

  /** A disabled breaker allows every call and no operation changes the store. */
  lemma DisabledIsInert(cfg: CacheConfig, s: Store, key: string, now: int)
    requires !cfg.enabled
    ensures Allows(cfg, s, key, now)
    ensures AfterReset(cfg, s, key, now) == s
    ensures AfterForceReset(cfg, s, key) == s
    ensures AfterFailure(cfg, s, key, now) == s
  {
  }

  /** `reset` forgets both cache keys exactly when a non-zero timestamp is
      stored and lies more than `resetTimeout` ms in the past; a missing or
      zero timestamp never resets. */
  lemma ResetExactlyWhenStale(cfg: CacheConfig, s: Store, key: string, now: int)
    requires cfg.enabled
    ensures var last := Lookup(s, LastFailureKey(cfg.keyPrefix, key), now);
      AfterReset(cfg, s, key, now) ==
        if last.Some? && last.value != 0 && now > last.value * 1000 + cfg.resetTimeout
        then s - {FailuresKey(cfg.keyPrefix, key), LastFailureKey(cfg.keyPrefix, key)}
        else s
    ensures Lookup(s, LastFailureKey(cfg.keyPrefix, key), now) in {None, Some(0)} ==>
      AfterReset(cfg, s, key, now) == s
  {
  }

  /** `forceReset` and `recordSuccess` forget the two cache keys of `key` and
      nothing else, whatever their age; afterwards `key` is allowed. */
  lemma ForceResetForgetsOnlyKey(cfg: CacheConfig, s: Store, key: string, now: int)
    requires cfg.enabled
    ensures AfterForceReset(cfg, s, key).Keys ==
      s.Keys - {FailuresKey(cfg.keyPrefix, key), LastFailureKey(cfg.keyPrefix, key)}
    ensures forall k :: k in AfterForceReset(cfg, s, key) ==> AfterForceReset(cfg, s, key)[k] == s[k]
    ensures Allows(cfg, AfterForceReset(cfg, s, key), key, now)
  {
    var s1 := AfterForceReset(cfg, s, key);
    assert Lookup(AfterReset(cfg, s1, key, now), LastFailureKey(cfg.keyPrefix, key), now).None?;
  }

  /** A record whose timestamp is older than `resetTimeout` is allowed, and
      `isOpen` deletes both of its cache keys. */
  lemma StaleRecordAllowedAndCleared(cfg: CacheConfig, s: Store, key: string, now: int)
    requires cfg.enabled
    requires ExpiredForReset(cfg, s, key, now)
    ensures Allows(cfg, s, key, now)
    ensures AfterReset(cfg, s, key, now) == ForgetBoth(cfg, s, key)
  {
    assert Lookup(ForgetBoth(cfg, s, key), LastFailureKey(cfg.keyPrefix, key), now).None?;
  }

  /** `isOpen` blocks exactly when the record is not stale, its count reached
      the threshold (inclusive) and its timestamp is present. */
  lemma BlockedExactly(cfg: CacheConfig, s: Store, key: string, now: int)
    requires cfg.enabled
    ensures !Allows(cfg, s, key, now) <==>
      && !ExpiredForReset(cfg, s, key, now)
      && Lookup(s, FailuresKey(cfg.keyPrefix, key), now).GetOr(0) >= cfg.failureThreshold
      && Lookup(s, LastFailureKey(cfg.keyPrefix, key), now).Some?
  {
    if ExpiredForReset(cfg, s, key, now) {
      StaleRecordAllowedAndCleared(cfg, s, key, now);
    }
  }

  /** What `recordFailure` writes, read back at the same instant: the count
      restarts at 1 when the previous count is positive and its timestamp is
      more than `timeout` ms old, otherwise it grows by one; the timestamp is
      `now` in seconds; both keys expire `|timeout|` ms later. */
  lemma FailureWrites(cfg: CacheConfig, s: Store, key: string, now: int)
    requires cfg.enabled && cfg.timeout != 0
    ensures var s1 := AfterReset(cfg, s, key, now);
      var previous := Lookup(s1, FailuresKey(cfg.keyPrefix, key), now).GetOr(0);
      var s2 := AfterFailure(cfg, s, key, now);
      && Lookup(s2, FailuresKey(cfg.keyPrefix, key), now) ==
           Some(if previous > 0 && ExpiredFromCounter(cfg, s1, key, now) then 1 else previous + 1)
      && Lookup(s2, LastFailureKey(cfg.keyPrefix, key), now) == Some(now / 1000)
      && s2[FailuresKey(cfg.keyPrefix, key)].expiresAt == now + Abs(cfg.timeout)
      && s2[LastFailureKey(cfg.keyPrefix, key)].expiresAt == now + Abs(cfg.timeout)
  {
    StorageKeysDistinct(cfg.keyPrefix, key, key);
  }

  /** Operations on one logical key never change what is stored for another,
      nor the decision for it. */
  lemma {:induction false} OtherKeysUntouched(cfg: CacheConfig, s: Store, key: string, other: string, now: int, later: int)
    requires other != key
    ensures var fk, lk := FailuresKey(cfg.keyPrefix, other), LastFailureKey(cfg.keyPrefix, other);
      && Agree(AfterFailure(cfg, s, key, now), s, {fk, lk})
      && Agree(AfterReset(cfg, s, key, now), s, {fk, lk})
      && Agree(AfterForceReset(cfg, s, key), s, {fk, lk})
    ensures Allows(cfg, AfterFailure(cfg, s, key, now), other, later) == Allows(cfg, s, other, later)
    ensures Allows(cfg, AfterReset(cfg, s, key, now), other, later) == Allows(cfg, s, other, later)
    ensures Allows(cfg, AfterForceReset(cfg, s, key), other, later) == Allows(cfg, s, other, later)
  {
    UpdatesAgreeElsewhere(cfg, s, key, other, now);
    AgreeKeepsDecision(cfg, AfterFailure(cfg, s, key, now), s, other, later);
    AgreeKeepsDecision(cfg, AfterReset(cfg, s, key, now), s, other, later);
    AgreeKeepsDecision(cfg, AfterForceReset(cfg, s, key), s, other, later);
  }

  lemma UpdatesAgreeElsewhere(cfg: CacheConfig, s: Store, key: string, other: string, now: int)
    requires other != key
    ensures var fk, lk := FailuresKey(cfg.keyPrefix, other), LastFailureKey(cfg.keyPrefix, other);
      && Agree(AfterFailure(cfg, s, key, now), s, {fk, lk})
      && Agree(AfterReset(cfg, s, key, now), s, {fk, lk})
      && Agree(AfterForceReset(cfg, s, key), s, {fk, lk})
  {
    StorageKeysDistinct(cfg.keyPrefix, key, other);
    StorageKeysDistinct(cfg.keyPrefix, other, key);
  }

  /** Two stores hold the same items under `keys`. */
  predicate Agree(s: Store, t: Store, keys: set<string>) {
    forall k :: k in keys ==> (k in s <==> k in t) && (k in s ==> s[k] == t[k])
  }

  lemma AgreeKeepsDecision(cfg: CacheConfig, s: Store, t: Store, key: string, now: int)
    requires Agree(s, t, {FailuresKey(cfg.keyPrefix, key), LastFailureKey(cfg.keyPrefix, key)})
    ensures Allows(cfg, s, key, now) == Allows(cfg, t, key, now)
  {
    var fk, lk := FailuresKey(cfg.keyPrefix, key), LastFailureKey(cfg.keyPrefix, key);
    assert Lookup(s, fk, now) == Lookup(t, fk, now);
    assert Lookup(s, lk, now) == Lookup(t, lk, now);
    var s1, t1 := AfterReset(cfg, s, key, now), AfterReset(cfg, t, key, now);
    assert Lookup(s1, fk, now) == Lookup(t1, fk, now);
    assert Lookup(s1, lk, now) == Lookup(t1, lk, now);
  }

  /** Wherever a failures key is stored, its last-failure key is stored with
      the same expiry: the two keys are written and forgotten together. */
  ghost predicate Paired(prefix: string, s: Store) {
    forall k :: FailuresKey(prefix, k) in s ==>
      LastFailureKey(prefix, k) in s && s[LastFailureKey(prefix, k)].expiresAt == s[FailuresKey(prefix, k)].expiresAt
  }

  /** Every operation keeps the two keys of each record paired. */
  lemma {:induction false} PairingPreserved(cfg: CacheConfig, s: Store, key: string, now: int)
    requires Paired(cfg.keyPrefix, s)
    ensures Paired(cfg.keyPrefix, AfterReset(cfg, s, key, now))
    ensures Paired(cfg.keyPrefix, AfterForceReset(cfg, s, key))
    ensures Paired(cfg.keyPrefix, AfterFailure(cfg, s, key, now))
  {
    var p := cfg.keyPrefix;
    forall k ensures FailuresKey(p, k) != LastFailureKey(p, key) && LastFailureKey(p, k) != FailuresKey(p, key)
      && (k != key ==> FailuresKey(p, k) != FailuresKey(p, key) && LastFailureKey(p, k) != LastFailureKey(p, key))
    {
      StorageKeysDistinct(p, k, key);
      StorageKeysDistinct(p, key, k);
    }
  }

  /** In a paired store with a positive threshold, the missing-timestamp
      branch of `isOpen` never decides: a key is blocked exactly when its
      record is not stale and its live count reached the threshold. */
  lemma {:induction false} PairedBlockedExactly(cfg: CacheConfig, s: Store, key: string, now: int)
    requires cfg.enabled && cfg.failureThreshold > 0 && Paired(cfg.keyPrefix, s)
    ensures !Allows(cfg, s, key, now) <==>
      && !ExpiredForReset(cfg, s, key, now)
      && Lookup(s, FailuresKey(cfg.keyPrefix, key), now).Some?
      && Lookup(s, FailuresKey(cfg.keyPrefix, key), now).value >= cfg.failureThreshold
  {
    BlockedExactly(cfg, s, key, now);
  }

  /** The timestamp is kept in whole seconds, so a streak can restart 1 ms
      after the previous failure: with a 500 ms timeout, failures at 1999 ms
      and 2000 ms leave a count of 1, not 2. */
  lemma SecondsTruncationRestartsStreak()
    ensures var cfg := CacheConfig(true, 500, 3, 10000, "p", "default");
      var s1 := AfterFailure(cfg, map[], "svc", 1999);
      var s2 := AfterFailure(cfg, s1, "svc", 2000);
      Lookup(s1, FailuresKey("p", "svc"), 1999) == Some(1) &&
      Lookup(s2, FailuresKey("p", "svc"), 2000) == Some(1)
  {
    var cfg := CacheConfig(true, 500, 3, 10000, "p", "default");
    StorageKeysDistinct("p", "svc", "svc");
    FailureWrites(cfg, map[], "svc", 1999);
    var s1 := AfterFailure(cfg, map[], "svc", 1999);
    FailureWrites(cfg, s1, "svc", 2000);
  }

  /** One more failure inside the streak window, on a record that is not
      stale, adds one to a positive live count. */
  lemma FailureExtendsStreak(cfg: CacheConfig, s: Store, key: string, now: int, n: int)
    requires cfg.enabled && cfg.timeout != 0 && n > 0
    requires !ExpiredForReset(cfg, s, key, now) && !ExpiredFromCounter(cfg, s, key, now)
    requires Lookup(s, FailuresKey(cfg.keyPrefix, key), now) == Some(n)
    ensures Lookup(AfterFailure(cfg, s, key, now), FailuresKey(cfg.keyPrefix, key), now) == Some(n + 1)
  {
    FailureWrites(cfg, s, key, now);
  }

  /** With threshold 5, a 5000 ms timeout and a 30000 ms reset timeout,
      starting at t = 1000000 ms: four failures at t leave calls allowed, a
      fifth at t + 100 blocks them, and 30101 ms later they are allowed again. */
  lemma {:induction false} ThresholdScenario()
    ensures var cfg := CacheConfig(true, 5000, 5, 30000, "p", "default");
      var t := 1000000;
      var s4 := AfterFailure(cfg, AfterFailure(cfg, AfterFailure(cfg, AfterFailure(cfg, map[], "svc", t), "svc", t), "svc", t), "svc", t);
      var s5 := AfterFailure(cfg, s4, "svc", t + 100);
      Allows(cfg, s4, "svc", t) && !Allows(cfg, s5, "svc", t + 100) && Allows(cfg, s5, "svc", t + 30101)
  {
    var cfg := CacheConfig(true, 5000, 5, 30000, "p", "default");
    var t := 1000000;
    var fk, lk := FailuresKey("p", "svc"), LastFailureKey("p", "svc");
    StorageKeysDistinct("p", "svc", "svc");
    FailureWrites(cfg, map[], "svc", t);
    var s1 := AfterFailure(cfg, map[], "svc", t);
    FailureExtendsStreak(cfg, s1, "svc", t, 1);
    var s2 := AfterFailure(cfg, s1, "svc", t);
    FailureWrites(cfg, s1, "svc", t);
    FailureExtendsStreak(cfg, s2, "svc", t, 2);
    var s3 := AfterFailure(cfg, s2, "svc", t);
    FailureWrites(cfg, s2, "svc", t);
    FailureExtendsStreak(cfg, s3, "svc", t, 3);
    var s4 := AfterFailure(cfg, s3, "svc", t);
    FailureWrites(cfg, s3, "svc", t);
    assert Lookup(s4, fk, t) == Some(4);
    assert Lookup(s4, lk, t + 100) == Some(1000);
    FailureExtendsStreak(cfg, s4, "svc", t + 100, 4);
    var s5 := AfterFailure(cfg, s4, "svc", t + 100);
    FailureWrites(cfg, s4, "svc", t + 100);
    BlockedExactly(cfg, s5, "svc", t + 100);
    assert Lookup(s5, lk, t + 30101) == None;
  }

  /** With threshold 3 and a 5000 ms timeout, failures 10 s apart each find
      the previous count expired from the cache, so the count stays at 1 and
      calls stay allowed. */
  lemma {:induction false} WindowGapsRestartStreak()
    ensures var cfg := CacheConfig(true, 5000, 3, 30000, "p", "default");
      var t := 1000000;
      var s3 := AfterFailure(cfg, AfterFailure(cfg, AfterFailure(cfg, map[], "svc", t), "svc", t + 10000), "svc", t + 20000);
      Lookup(s3, FailuresKey("p", "svc"), t + 20000) == Some(1) && Allows(cfg, s3, "svc", t + 20000)
  {
    var cfg := CacheConfig(true, 5000, 3, 30000, "p", "default");
    var t := 1000000;
    var fk := FailuresKey("p", "svc");
    StorageKeysDistinct("p", "svc", "svc");
    FailureWrites(cfg, map[], "svc", t);
    var s1 := AfterFailure(cfg, map[], "svc", t);
    assert Lookup(AfterReset(cfg, s1, "svc", t + 10000), fk, t + 10000) == None;
    FailureWrites(cfg, s1, "svc", t + 10000);
    var s2 := AfterFailure(cfg, s1, "svc", t + 10000);
    assert Lookup(AfterReset(cfg, s2, "svc", t + 20000), fk, t + 20000) == None;
    FailureWrites(cfg, s2, "svc", t + 20000);
    var s3 := AfterFailure(cfg, s2, "svc", t + 20000);
    BlockedExactly(cfg, s3, "svc", t + 20000);
  }

  /** The store after failures recorded for `key` at the successive times in
      `times`. */
  function Failures(cfg: CacheConfig, s: Store, key: string, times: seq<int>): Store
    decreases |times|
  {
    if times == [] then s
    else AfterFailure(cfg, Failures(cfg, s, key, times[..|times| - 1]), key, times[|times| - 1])
  }

  function Min(x: int, y: int): int {
    if x <= y then x else y
  }

  /** A millisecond instant and its whole second, turned back into ms. */
  lemma SecondsBounds(t: int)
    requires t >= 1000
    ensures t - 1000 < Seconds(t) * 1000 <= t
    ensures Seconds(t) >= 1
  {
  }

  /** A streak of failures on an enabled breaker, starting with no live
      record, whose times never decrease and are never more than
      `min(timeout, resetTimeout) - 1000` ms apart (the margin absorbs the
      whole-second timestamp), counts every failure: at the last time the
      count reads `|times|`, the timestamp that time in seconds, and both keys
      expire `timeout` ms after it. */
  lemma {:induction false} StreakCountsEveryFailure(cfg: CacheConfig, s: Store, key: string, times: seq<int>)
    requires cfg.enabled && cfg.timeout >= 1000 && cfg.resetTimeout >= 1000
    requires times != [] && times[0] >= 1000
    requires GapsAtMost(times, Min(cfg.timeout, cfg.resetTimeout) - 1000)
    requires Lookup(s, FailuresKey(cfg.keyPrefix, key), times[0]) == None
    requires Lookup(s, LastFailureKey(cfg.keyPrefix, key), times[0]) == None
    ensures var r, last := Failures(cfg, s, key, times), times[|times| - 1];
      && last >= 1000
      && Lookup(r, FailuresKey(cfg.keyPrefix, key), last) == Some(|times|)
      && Lookup(r, LastFailureKey(cfg.keyPrefix, key), last) == Some(Seconds(last))
      && r[FailuresKey(cfg.keyPrefix, key)].expiresAt == last + cfg.timeout
      && r[LastFailureKey(cfg.keyPrefix, key)].expiresAt == last + cfg.timeout
    decreases |times|
  {
    var n := |times|;
    var prefix := times[..n - 1];
    var fk, lk := FailuresKey(cfg.keyPrefix, key), LastFailureKey(cfg.keyPrefix, key);
    var t' := times[n - 1];
    if n == 1 {
      assert Failures(cfg, s, key, times) == AfterFailure(cfg, s, key, t') by {
        assert prefix == [];
      }
      assert AfterReset(cfg, s, key, t') == s;
      FailureWrites(cfg, s, key, t');
    } else {
      assert GapsAtMost(prefix, Min(cfg.timeout, cfg.resetTimeout) - 1000) by {
        forall i | 0 < i < |prefix|
          ensures prefix[i - 1] <= prefix[i] <= prefix[i - 1] + Min(cfg.timeout, cfg.resetTimeout) - 1000
        {
          assert prefix[i] == times[i] && prefix[i - 1] == times[i - 1];
        }
      }
      assert prefix[0] == times[0];
      StreakCountsEveryFailure(cfg, s, key, prefix);
      var p := Failures(cfg, s, key, prefix);
      var t := prefix[n - 2];
      assert t <= t' <= t + Min(cfg.timeout, cfg.resetTimeout) - 1000;
      SecondsBounds(t);
      assert Lookup(p, fk, t') == Some(n - 1);
      assert Lookup(p, lk, t') == Some(Seconds(t));
      assert !ExpiredForReset(cfg, p, key, t');
      assert !ExpiredFromCounter(cfg, p, key, t');
      FailureExtendsStreak(cfg, p, key, t', n - 1);
      FailureWrites(cfg, p, key, t');
    }
  }

  /** Within the window after the last failure of such a streak, the key is
      blocked exactly when the streak has at least `failureThreshold` failures
      (inclusive). */
  lemma StreakTripsAtThreshold(cfg: CacheConfig, s: Store, key: string, times: seq<int>, now: int)
    requires cfg.enabled && cfg.timeout >= 1000 && cfg.resetTimeout >= 1000
    requires times != [] && times[0] >= 1000
    requires GapsAtMost(times, Min(cfg.timeout, cfg.resetTimeout) - 1000)
    requires Lookup(s, FailuresKey(cfg.keyPrefix, key), times[0]) == None
    requires Lookup(s, LastFailureKey(cfg.keyPrefix, key), times[0]) == None
    requires times[|times| - 1] <= now <= times[|times| - 1] + Min(cfg.timeout, cfg.resetTimeout) - 1000
    ensures !Allows(cfg, Failures(cfg, s, key, times), key, now) <==> |times| >= cfg.failureThreshold
  {
    StreakCountsEveryFailure(cfg, s, key, times);
    var r, last := Failures(cfg, s, key, times), times[|times| - 1];
    SecondsBounds(last);
    assert Lookup(r, FailuresKey(cfg.keyPrefix, key), now) == Some(|times|);
    assert Lookup(r, LastFailureKey(cfg.keyPrefix, key), now) == Some(Seconds(last));
    assert !ExpiredForReset(cfg, r, key, now);
    BlockedExactly(cfg, r, key, now);
  }
}
