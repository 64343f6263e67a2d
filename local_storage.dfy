/**
 * `LocalStorageAdapter` (src/Adapter/LocalStorageAdapter.php): the breaker
 * over an in-process map from operation key to its failure register.
 *
 * `IsOpen` returning true means calls are ALLOWED. The clock is the explicit
 * `now` argument, in milliseconds; the elapsed time since a failure is
 * `now - lastFailure`, which is non-negative for a clock that does not run
 * backwards. The code is reproduced as written, including its quirks: the
 * trip check compares elapsed milliseconds with the failure THRESHOLD, and a
 * streak restarts after the RESET timeout, not after the failure timeout.
 */
module LocalStorage {
  import opened Configuration
  import opened FailureTimes

  /** One container entry: `['failures' => ..., 'last_failure' => ...]`. */
  datatype Register = Register(failures: int, lastFailure: int)

  type Container = map<string, Register>

  /** Every stored register counts at least one failure. */
  ghost predicate WellFormed(c: Container) {
    forall k :: k in c ==> c[k].failures >= 1
  }

  /** The breaker blocks `key`: enabled, a register exists, its count reached
      the threshold (inclusive), and at most `failureThreshold` milliseconds
      have passed since the last failure. */
  predicate Tripped(cfg: Config, c: Container, key: string, now: int) {
    && cfg.enabled
    && key in c
    && c[key].failures >= cfg.failureThreshold
    && now - c[key].lastFailure <= cfg.failureThreshold
  }

  /** The container after `recordFailure(key)` at time `now`. */
  function AfterFailure(cfg: Config, c: Container, key: string, now: int): Container {
    if !cfg.enabled then c
    else if key !in c then c[key := Register(1, now)]
    else if now - c[key].lastFailure > cfg.resetTimeout then c[key := Register(1, now)]
    else c[key := Register(c[key].failures + 1, now)]
  }

  /** The container after `reset(key)`, and so after `recordSuccess(key)`. */
  function AfterReset(cfg: Config, c: Container, key: string): Container {
    if !cfg.enabled then c else c - {key}
  }

  class LocalStorageAdapter {
    const config: Config
    var container: Container

    ghost predicate Valid()
      reads this
    {
      WellFormed(container)
    }

    constructor (config: Config)
      ensures this.config == config && container == map[] && Valid()
    {
      this.config := config;
      container := map[];
    }

    /** `isOpen`: reads the container and never changes it. */
    method IsOpen(key: string, now: int) returns (open: bool)
      ensures open <==> !Tripped(config, container, key, now)
    {
      if !config.enabled {
        return true;
      }
      if key !in container {
        return true;
      }
      var register := container[key];
      if register.failures >= config.failureThreshold {
        var timeFromLastFailure := now - register.lastFailure;
        if timeFromLastFailure <= config.failureThreshold {
          return false;
        }
      }
      return true;
    }

    /** `recordFailure`: creates, restarts or increments the key's register. */
    method RecordFailure(key: string, now: int)
      requires Valid()
      modifies this
      ensures Valid()
      ensures container == AfterFailure(config, old(container), key, now)
    {
      if !config.enabled {
        return;
      }
      if key !in container {
        container := container[key := Register(1, now)];
        return;
      }
      var timeFromLastFailure := now - container[key].lastFailure;
      if timeFromLastFailure > config.resetTimeout {
        container := container[key := Register(1, now)];
        return;
      }
      container := container[key := container[key].(failures := container[key].failures + 1)];
      container := container[key := container[key].(lastFailure := now)];
    }

    /** `recordSuccess`: delegates to `reset`. */
    method RecordSuccess(key: string)
      requires Valid()
      modifies this
      ensures Valid()
      ensures container == AfterReset(config, old(container), key)
    {
      Reset(key);
    }

    /** `reset`: deletes the key's register whatever its age. */
    method Reset(key: string)
      requires Valid()
      modifies this
      ensures Valid()
      ensures container == AfterReset(config, old(container), key)
    {
      if !config.enabled {
        return;
      }
      if key in container {
        container := container - {key};
      }
    }
  }

  /** Failures recorded for `key` at the successive times in `times`. */
  function RecordFailures(cfg: Config, c: Container, key: string, times: seq<int>): Container
    decreases |times|
  {
    if times == [] then c
    else AfterFailure(cfg, RecordFailures(cfg, c, key, times[..|times| - 1]), key, times[|times| - 1])
  }

  // ---------------------------------------------------------------- lemmas

  /** A disabled breaker allows every call and no operation changes its container. */
  lemma DisabledIsInert(cfg: Config, c: Container, key: string, now: int)
    requires !cfg.enabled
    ensures !Tripped(cfg, c, key, now)
    ensures AfterFailure(cfg, c, key, now) == c
    ensures AfterReset(cfg, c, key) == c
  {
  }

  /** A key with no register is allowed. */
  lemma AbsentKeyAllowed(cfg: Config, c: Container, key: string, now: int)
    requires key !in c
    ensures !Tripped(cfg, c, key, now)
  {
  }

  /** The three outcomes of `recordFailure` on an enabled breaker: a first
      failure and a failure more than `resetTimeout` ms after the last one
      start a register at 1; any other failure adds exactly 1. The time is
      updated in every case. */
  lemma FailureCounting(cfg: Config, c: Container, key: string, now: int)
    requires cfg.enabled
    ensures key !in c ==> AfterFailure(cfg, c, key, now)[key] == Register(1, now)
    ensures key in c && now - c[key].lastFailure > cfg.resetTimeout ==>
      AfterFailure(cfg, c, key, now)[key] == Register(1, now)
    ensures key in c && now - c[key].lastFailure <= cfg.resetTimeout ==>
      AfterFailure(cfg, c, key, now)[key] == Register(c[key].failures + 1, now)
  {
  }

  /** `reset` and `recordSuccess` remove exactly the key's register, after
      which the key is allowed. */
  lemma ResetClearsOnlyKey(cfg: Config, c: Container, key: string, now: int)
    requires cfg.enabled
    ensures AfterReset(cfg, c, key).Keys == c.Keys - {key}
    ensures forall k :: k in AfterReset(cfg, c, key) ==> AfterReset(cfg, c, key)[k] == c[k]
    ensures !Tripped(cfg, AfterReset(cfg, c, key), key, now)
  {
  }

  /** Operations on one key never change another key's register nor the
      decision for it. */
  lemma OtherKeysUntouched(cfg: Config, c: Container, key: string, other: string, now: int, later: int)
    requires other != key
    ensures (other in AfterFailure(cfg, c, key, now)) == (other in c)
    ensures other in c ==> AfterFailure(cfg, c, key, now)[other] == c[other]
    ensures (other in AfterReset(cfg, c, key)) == (other in c)
    ensures other in c ==> AfterReset(cfg, c, key)[other] == c[other]
    ensures Tripped(cfg, AfterFailure(cfg, c, key, now), other, later) == Tripped(cfg, c, other, later)
    ensures Tripped(cfg, AfterReset(cfg, c, key), other, later) == Tripped(cfg, c, other, later)
  {
  }

  /** Both updates keep every stored count at 1 or more. */
  lemma UpdatesKeepWellFormed(cfg: Config, c: Container, key: string, now: int)
    requires WellFormed(c)
    ensures WellFormed(AfterFailure(cfg, c, key, now))
    ensures WellFormed(AfterReset(cfg, c, key))
  {
  }

  /** The trip decision: blocked exactly when the count reached the threshold
      and the last failure is at most `failureThreshold` ms old. */
  lemma TrippedExactly(cfg: Config, c: Container, key: string, now: int)
    requires cfg.enabled && key in c
    ensures Tripped(cfg, c, key, now) <==>
      c[key].failures >= cfg.failureThreshold && now - c[key].lastFailure <= cfg.failureThreshold
  {
  }

  /** A streak of failures on an enabled breaker, starting with no register,
      whose times are ascending and never more than `resetTimeout` ms apart,
      leaves a register counting every failure, stamped with the last time. */
  lemma {:induction false} StreakCountsEveryFailure(cfg: Config, c: Container, key: string, times: seq<int>)
    requires cfg.enabled && key !in c && times != []
    requires GapsAtMost(times, cfg.resetTimeout)
    ensures key in RecordFailures(cfg, c, key, times)
    ensures RecordFailures(cfg, c, key, times)[key] == Register(|times|, times[|times| - 1])
  {
    var n := |times|;
    if n > 1 {
      var prefix := times[..n - 1];
      assert GapsAtMost(prefix, cfg.resetTimeout) by {
        forall i | 0 < i < |prefix| ensures prefix[i - 1] <= prefix[i] <= prefix[i - 1] + cfg.resetTimeout {
          assert prefix[i] == times[i] && prefix[i - 1] == times[i - 1];
        }
      }
      StreakCountsEveryFailure(cfg, c, key, prefix);
      assert times[n - 1] - prefix[n - 2] <= cfg.resetTimeout;
    }
  }

  /** Such a streak of at least `failureThreshold` failures trips the breaker
      as long as no more than `failureThreshold` ms passed since the last of
      them, and fewer failures never trip it. */
  lemma StreakTripsAtThreshold(cfg: Config, key: string, times: seq<int>, now: int)
    requires cfg.enabled && times != []
    requires GapsAtMost(times, cfg.resetTimeout)
    requires now - times[|times| - 1] <= cfg.failureThreshold
    ensures Tripped(cfg, RecordFailures(cfg, map[], key, times), key, now) <==> |times| >= cfg.failureThreshold
  {
    StreakCountsEveryFailure(cfg, map[], key, times);
  }

  /** As written, the trip lasts only `failureThreshold` milliseconds: with a
      threshold of 5, five failures within the window block calls at once,
      and calls are allowed again 6 ms after the last failure. Failures 10 s
      apart still add up, since only the reset timeout restarts a streak. */
  lemma {:induction false} TripLastsThresholdMilliseconds()
    ensures var cfg := Config(true, 5000, 5, 30000);
      var c := RecordFailures(cfg, map[], "svc", [0, 0, 0, 0, 100]);
      Tripped(cfg, c, "svc", 100) && !Tripped(cfg, c, "svc", 106) && !Tripped(cfg, c, "svc", 30101)
    ensures var cfg := Config(true, 5000, 3, 30000);
      var c := RecordFailures(cfg, map[], "svc", [0, 10000, 20000]);
      c["svc"].failures == 3 && Tripped(cfg, c, "svc", 20000)
  {
    var cfg := Config(true, 5000, 5, 30000);
    StreakCountsEveryFailure(cfg, map[], "svc", [0, 0, 0, 0, 100]);
    var cfg3 := Config(true, 5000, 3, 30000);
    StreakCountsEveryFailure(cfg3, map[], "svc", [0, 10000, 20000]);
  }
}
