/**
 * The tuning records of the breaker: `Config` (src/Config/Config.php) and
 * `CacheConfig` (src/Config/CacheConfig.php).
 *
 * Both are immutable once built. A PHP constructor that throws
 * `InvalidArgumentException` is modelled as a constructor function that
 * returns `Failure` with the reason; the getters are the datatype fields.
 */
module Configuration {
  import opened Wrappers

  /** The reasons construction can fail, one per `throw` in the source. */
  datatype ConfigError =
    | TimeoutNotPositive
    | FailureThresholdNotPositive
    | ResetTimeoutNotPositive
    | CacheConnectionEmpty

  /** The exception message the source attaches to each reason. */
  function Message(e: ConfigError): string {
    match e
    case TimeoutNotPositive => "Timeout must be a positive integer."
    case FailureThresholdNotPositive => "Failure threshold must be a positive integer."
    case ResetTimeoutNotPositive => "Reset timeout must be a positive integer."
    case CacheConnectionEmpty => "Cache connection cannot be empty."
  }

  /** `Config`: the four fields are exactly what `isEnabled`, `getTimeout`,
      `getFailureThreshold` and `getResetTimeout` return. Durations are ms. */
  datatype Config = Config(enabled: bool, timeout: int, failureThreshold: int, resetTimeout: int)

  /** `CacheConfig`: a `Config` plus the cache key prefix and the name of the
      cache store to use. */
  datatype CacheConfig = CacheConfig(
    enabled: bool,
    timeout: int,
    failureThreshold: int,
    resetTimeout: int,
    keyPrefix: string,
    cacheConnection: string)

  const DefaultKeyPrefix: string := "circuit-breaker:"
  const DefaultCacheConnection: string := "default"

  /** `Config::validate`: the three checks, in source order; the first one
      that fails decides the error. */
  function Validate(timeout: int, failureThreshold: int, resetTimeout: int): Option<ConfigError> {
    if timeout <= 0 then Some(TimeoutNotPositive)
    else if failureThreshold <= 0 then Some(FailureThresholdNotPositive)
    else if resetTimeout <= 0 then Some(ResetTimeoutNotPositive)
    else None
  }

  /** `new Config(...)`: builds the record, or fails with the first failing check. */
  function NewConfig(enabled: bool, timeout: int, failureThreshold: int, resetTimeout: int)
    : (r: Result<Config, ConfigError>)
    ensures r.Success? <==> timeout > 0 && failureThreshold > 0 && resetTimeout > 0
    ensures r.Success? ==> r.value == Config(enabled, timeout, failureThreshold, resetTimeout)
    ensures r == Failure(TimeoutNotPositive) <==> timeout <= 0
    ensures r == Failure(FailureThresholdNotPositive) <==> timeout > 0 && failureThreshold <= 0
    ensures r == Failure(ResetTimeoutNotPositive) <==> timeout > 0 && failureThreshold > 0 && resetTimeout <= 0
  {
    match Validate(timeout, failureThreshold, resetTimeout)
    case Some(e) => Failure(e)
    case None => Success(Config(enabled, timeout, failureThreshold, resetTimeout))
  }

  /** PHP's `empty()` on a string: true exactly for "" and "0". */
  predicate PhpEmpty(s: string) {
    s == "" || s == "0"
  }

  /** `CacheConfig::validate`, the override. */
  function ValidateCache(cacheConnection: string): Option<ConfigError> {
    if PhpEmpty(cacheConnection) then Some(CacheConnectionEmpty) else None
  }

  /**
   * `new CacheConfig(...)`. The parent constructor calls `$this->validate()`,
   * which PHP binds late to the override, and the child constructor calls it
   * once more; `Config::validate` never runs, so only the cache connection is
   * checked. Running the same check twice is the same as running it once.
   */
  function NewCacheConfig(
    enabled: bool,
    timeout: int,
    failureThreshold: int,
    resetTimeout: int,
    keyPrefix: string := DefaultKeyPrefix,
    cacheConnection: string := DefaultCacheConnection)
    : (r: Result<CacheConfig, ConfigError>)
    ensures r.Success? <==> !PhpEmpty(cacheConnection)
    ensures r.Failure? ==> r.error == CacheConnectionEmpty
    ensures r.Success? ==> r.value == CacheConfig(enabled, timeout, failureThreshold, resetTimeout, keyPrefix, cacheConnection)
  {
    // parent::__construct(...) -> $this->validate() (the override)
    match ValidateCache(cacheConnection)
    case Some(e) => Failure(e)
    case None =>
      // $this->validate() in the child constructor
      match ValidateCache(cacheConnection)
      case Some(e) => Failure(e)
      case None => Success(CacheConfig(enabled, timeout, failureThreshold, resetTimeout, keyPrefix, cacheConnection))
  }

  /** The inherited `Config` part of a `CacheConfig`. */
  function AsConfig(c: CacheConfig): Config {
    Config(c.enabled, c.timeout, c.failureThreshold, c.resetTimeout)
  }

  /** The error a failed `Config` construction reports names the first field
      (in the order timeout, failure threshold, reset timeout) that is not
      positive, whether or not the breaker is enabled. */
  lemma ConfigFirstFailingCheckWins(enabled: bool, timeout: int, failureThreshold: int, resetTimeout: int)
    ensures NewConfig(enabled, timeout, failureThreshold, resetTimeout).Failure? ==>
      NewConfig(enabled, timeout, failureThreshold, resetTimeout).error ==
        (if timeout <= 0 then TimeoutNotPositive
         else if failureThreshold <= 0 then FailureThresholdNotPositive
         else ResetTimeoutNotPositive)
    ensures NewConfig(enabled, timeout, failureThreshold, resetTimeout).Success? ==
            NewConfig(!enabled, timeout, failureThreshold, resetTimeout).Success?
  {
  }

  /** The smallest accepted values are 1, 1 and 1. */
  lemma ConfigMinimumValuesAccepted(enabled: bool)
    ensures NewConfig(enabled, 1, 1, 1) == Success(Config(enabled, 1, 1, 1))
    ensures NewConfig(enabled, 0, 1, 1) == Failure(TimeoutNotPositive)
    ensures NewConfig(enabled, 1, 0, 1) == Failure(FailureThresholdNotPositive)
    ensures NewConfig(enabled, 1, 1, 0) == Failure(ResetTimeoutNotPositive)
  {
  }

  /** Because of the override, a `CacheConfig` accepts tuning values that
      `Config` rejects, and accepts an empty key prefix. */
  lemma CacheConfigSkipsNumericChecks(enabled: bool, timeout: int, failureThreshold: int, resetTimeout: int, keyPrefix: string)
    ensures NewCacheConfig(enabled, timeout, failureThreshold, resetTimeout, keyPrefix, "default").Success?
    ensures NewConfig(enabled, 0, 0, 0).Failure? && NewCacheConfig(enabled, 0, 0, 0).Success?
    ensures NewCacheConfig(enabled, 1, 1, 1, "", "redis").Success?
  {
  }

  /** `""` and `"0"` are the only rejected cache connections; the defaults are
      `"circuit-breaker:"` and `"default"`. */
  lemma CacheConfigDefaults(enabled: bool, timeout: int, failureThreshold: int, resetTimeout: int)
    ensures NewCacheConfig(enabled, timeout, failureThreshold, resetTimeout) ==
      Success(CacheConfig(enabled, timeout, failureThreshold, resetTimeout, "circuit-breaker:", "default"))
    ensures NewCacheConfig(enabled, timeout, failureThreshold, resetTimeout, "p", "") == Failure(CacheConnectionEmpty)
    ensures NewCacheConfig(enabled, timeout, failureThreshold, resetTimeout, "p", "0") == Failure(CacheConnectionEmpty)
    ensures NewCacheConfig(enabled, timeout, failureThreshold, resetTimeout, "p", "00").Success?
  {
  }

  /** The inherited getters of a built `CacheConfig` return the constructor values. */
  lemma CacheConfigGetters(enabled: bool, timeout: int, failureThreshold: int, resetTimeout: int, keyPrefix: string, cacheConnection: string)
    requires !PhpEmpty(cacheConnection)
    ensures AsConfig(NewCacheConfig(enabled, timeout, failureThreshold, resetTimeout, keyPrefix, cacheConnection).value) ==
      Config(enabled, timeout, failureThreshold, resetTimeout)
  {
  }
}
