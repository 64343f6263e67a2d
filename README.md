# php-circuit-breaker in Dafny

A Dafny model of the core of the PHP package `haaragard/php-circuit-breaker`:
a per-key circuit breaker that counts failures of an operation and decides
whether calls to it are currently allowed.

- `LocalStorageAdapter` keeps, per key, a register `{failures, last_failure}`
  in an in-process array (`local_storage.dfy`, a class with a `map` field).
- `CacheStorageAdapter` keeps the same record as two entries of a TTL cache,
  `{prefix}:{key}:failures` and `{prefix}:{key}:last_failure`
  (`cache_storage.dfy`, over the cache repository of `cache_repository.dfy`).
- `Config` and `CacheConfig` are the validated tuning records
  (`config.dfy`).
- `ConfigFactory` builds the right record from a configuration array, and for
  any other adapter prepares the camelCase argument array of its own
  configuration class (`config_factory.dfy`, over the ordered PHP array of
  `php_array.dfy`).

`isOpen(key) == true` means calls are ALLOWED, as in the package. The clock
is an explicit `now` argument in milliseconds. The code is modelled as
written. Each adapter has a state-changing class whose methods are proved
against a specification function on the old state (`AfterFailure`,
`AfterReset`, `AfterForceReset`). The lemmas are about those functions.

In these places the code behaves differently from what its names and its own
tests suggest; the model follows the code:
- The local adapter blocks only while at most `failureThreshold` milliseconds
  have passed since the last failure (`LocalStorageAdapter.php:31-32`), not
  the failure window. It also restarts a streak only after `resetTimeout`
  (`:55-56`), so failures 10 s apart keep adding up.
  `LocalStorage.TripLastsThresholdMilliseconds` shows both.
- `CacheConfig` validates only the cache connection. Its `validate()`
  override is what the parent constructor calls (`CacheConfig.php:30-35`), so
  zero or negative timeouts and thresholds are accepted.
  `Configuration.CacheConfigSkipsNumericChecks` shows this.
- The cache adapter stores the last-failure time in whole seconds
  (`CacheStorageAdapter.php:77`) and compares it in milliseconds, so a streak
  can restart 1 ms after the previous failure.
  `CacheStorage.SecondsTruncationRestartsStreak` shows this.
- A missing cache timestamp reads as 0, the epoch. It therefore counts as
  expired for the streak check (`:121-128`), and as not expired for the reset
  check (`:135-137`).

## Model

| member | source | states |
|---|---|---|
| Configuration.NewConfig | src/Config/Config.php:12-32 | construction succeeds iff timeout, failure threshold and reset timeout are all positive, and then holds exactly the arguments; otherwise the error is that of the first failing check in source order |
| Configuration.ConfigFirstFailingCheckWins | src/Config/Config.php:21-32 | the reported error names the first non-positive field; the `enabled` flag never affects validation |
| Configuration.ConfigMinimumValuesAccepted | src/Config/Config.php:23-31 | 1, 1, 1 is accepted and a 0 in each position is rejected with that position's error |
| Configuration.CacheConfigGetters | src/Config/Config.php:34-52 | the inherited getters of a built `CacheConfig` return the constructor's values |
| Configuration.NewCacheConfig | src/Config/CacheConfig.php:12-35 | construction succeeds iff the cache connection is not PHP-empty (`""` or `"0"`), fails only with the empty-connection error, and holds exactly the arguments |
| Configuration.CacheConfigSkipsNumericChecks | src/Config/CacheConfig.php:20-35 | because `validate()` is late-bound to the override, any numbers and any key prefix are accepted, including values `Config` rejects |
| Configuration.CacheConfigDefaults | src/Config/CacheConfig.php:17-34 | the defaults are `circuit-breaker:` and `default`; `""` and `"0"` are rejected, `"00"` is accepted |
| LocalStorage.LocalStorageAdapter.constructor | src/Adapter/LocalStorageAdapter.php:13-17 | a new adapter has an empty container and keeps the given config |
| LocalStorage.LocalStorageAdapter.IsOpen | src/Adapter/LocalStorageAdapter.php:19-38 | allowed iff not tripped: disabled, no register, count below the threshold, or more than `failureThreshold` ms since the last failure |
| LocalStorage.LocalStorageAdapter.RecordFailure | src/Adapter/LocalStorageAdapter.php:40-67 | the new container is `AfterFailure` of the old one, and every count stays at least 1 |
| LocalStorage.LocalStorageAdapter.RecordSuccess | src/Adapter/LocalStorageAdapter.php:69-72 | the same new container as `reset` |
| LocalStorage.LocalStorageAdapter.Reset | src/Adapter/LocalStorageAdapter.php:74-83 | the key's register is removed when enabled, and nothing changes when disabled |
| LocalStorage.DisabledIsInert | src/Adapter/LocalStorageAdapter.php:19-83 | a disabled breaker allows every call, and its failure and reset updates leave the container unchanged |
| LocalStorage.AbsentKeyAllowed | src/Adapter/LocalStorageAdapter.php:25-27 | a key without a register is allowed |
| LocalStorage.TrippedExactly | src/Adapter/LocalStorageAdapter.php:29-37 | unfolds `Tripped` for a present register: blocked iff count >= threshold and elapsed ms <= threshold |
| LocalStorage.FailureCounting | src/Adapter/LocalStorageAdapter.php:46-66 | a first failure, or one more than `resetTimeout` ms after the last, sets the register to (1, now); any other adds exactly 1 and stamps now |
| LocalStorage.ResetClearsOnlyKey | src/Adapter/LocalStorageAdapter.php:74-83 | reset removes exactly the key's register, keeps every other register, and leaves the key allowed |
| LocalStorage.OtherKeysUntouched | src/Adapter/LocalStorageAdapter.php:40-83 | recording a failure or resetting one key changes neither the register nor the decision of any other key |
| LocalStorage.UpdatesKeepWellFormed | src/Adapter/LocalStorageAdapter.php:46-66 | both updates keep every stored count at 1 or more |
| LocalStorage.StreakCountsEveryFailure | src/Adapter/LocalStorageAdapter.php:46-66 | starting without a register, n failures at ascending times, no more than `resetTimeout` ms apart, leave the register (n, time of the last) |
| LocalStorage.StreakTripsAtThreshold | src/Adapter/LocalStorageAdapter.php:29-35 | within `failureThreshold` ms of the last failure of such a streak, the key is blocked iff the streak has at least `failureThreshold` failures (inclusive) |
| LocalStorage.TripLastsThresholdMilliseconds | src/Adapter/LocalStorageAdapter.php:30-33 | with threshold 5, five failures block at once but not 6 ms later; with threshold 3, failures 10 s apart count to 3 and block |
| CacheRepository.Repository.Get | src/Adapter/CacheStorageAdapter.php:36 | a key is read iff it is stored and has not yet expired, and then its value is returned |
| CacheRepository.Repository.Set | src/Adapter/CacheStorageAdapter.php:70-79 | stores the value to expire `ttl` ms from now, or forgets the key when the TTL is not positive |
| CacheRepository.Repository.Forget | src/Adapter/CacheStorageAdapter.php:98-101 | removes exactly that key |
| CacheRepository.StoredThenLookup | src/Adapter/CacheStorageAdapter.php:70-79 | a written key reads back its value until the TTL runs out; other keys read as before |
| CacheRepository.ForgetThenLookup | src/Adapter/CacheStorageAdapter.php:96-102 | a forgotten key reads as nothing; other keys read as before |
| CacheStorage.CacheStorageAdapter.constructor | src/Adapter/CacheStorageAdapter.php:21-25 | keeps the config and the repository it is given |
| CacheStorage.CacheStorageAdapter.IsOpen | src/Adapter/CacheStorageAdapter.php:27-49 | the answer is `Allows` on the old store, and the store becomes that of the conditional reset |
| CacheStorage.CacheStorageAdapter.RecordFailure | src/Adapter/CacheStorageAdapter.php:51-80 | the store becomes `AfterFailure` of the old store |
| CacheStorage.CacheStorageAdapter.RecordSuccess | src/Adapter/CacheStorageAdapter.php:82-89 | the same store as `forceReset` |
| CacheStorage.CacheStorageAdapter.Reset | src/Adapter/CacheStorageAdapter.php:91-103 | the store becomes `AfterReset` of the old store |
| CacheStorage.CacheStorageAdapter.ForceReset | src/Adapter/CacheStorageAdapter.php:105-116 | both cache keys of the key are forgotten when enabled, and nothing changes when disabled |
| CacheStorage.CacheStorageAdapter.IsLastFailureExpiredFromCounter | src/Adapter/CacheStorageAdapter.php:118-129 | true iff now is more than `timeout` ms after the stored timestamp read as seconds, where a missing timestamp reads as 0 |
| CacheStorage.CacheStorageAdapter.IsLastFailureExpiredForReset | src/Adapter/CacheStorageAdapter.php:131-143 | true iff a non-zero timestamp is stored and now is more than `resetTimeout` ms after it |
| CacheStorage.ResolveKey | src/Adapter/CacheStorageAdapter.php:145-148 | the base key is the prefix, then `:`, then the logical key, and nothing else |
| CacheStorage.FailuresKey | src/Adapter/CacheStorageAdapter.php:150-153 | the failures key is the base key plus 9 more characters, ending in `s` |
| CacheStorage.LastFailureKey | src/Adapter/CacheStorageAdapter.php:155-158 | the last-failure key is the base key plus 13 more characters, ending in `e` |
| CacheStorage.StorageKeyFormat | src/Adapter/CacheStorageAdapter.php:145-158 | the cache keys are `prefix:key:failures` and `prefix:key:last_failure`; with the default prefix the colon doubles |
| CacheStorage.StorageKeysDistinct | src/Adapter/CacheStorageAdapter.php:145-158 | under one prefix a failures key is never a last-failure key, and distinct logical keys get distinct cache keys |
| CacheStorage.DisabledIsInert | src/Adapter/CacheStorageAdapter.php:27-116 | a disabled breaker allows every call, and no operation changes the store |
| CacheStorage.ResetExactlyWhenStale | src/Adapter/CacheStorageAdapter.php:91-103 | reset forgets both keys exactly when a non-zero timestamp is more than `resetTimeout` ms old; a missing or zero timestamp never resets |
| CacheStorage.ForceResetForgetsOnlyKey | src/Adapter/CacheStorageAdapter.php:105-116 | force reset removes exactly the two cache keys of the key, keeps every other entry, and leaves the key allowed |
| CacheStorage.StaleRecordAllowedAndCleared | src/Adapter/CacheStorageAdapter.php:27-49 | a record older than `resetTimeout` is allowed, and `isOpen` deletes both of its keys |
| CacheStorage.BlockedExactly | src/Adapter/CacheStorageAdapter.php:33-48 | blocked iff the record is not stale, its live count is at least the threshold, and its timestamp is present |
| CacheStorage.PairedBlockedExactly | src/Adapter/CacheStorageAdapter.php:35-48 | when both keys are written together and the threshold is positive, blocked iff the record is not stale and its live count reached the threshold |
| CacheStorage.FailureWrites | src/Adapter/CacheStorageAdapter.php:57-79 | the count restarts at 1 when a positive count's timestamp is more than `timeout` ms old and otherwise grows by 1; the timestamp is `now` in seconds; both keys expire `\|timeout\|` ms later |
| CacheStorage.FailureExtendsStreak | src/Adapter/CacheStorageAdapter.php:59-74 | a failure inside the window on a record that is not stale adds 1 to a positive live count |
| CacheStorage.OtherKeysUntouched | src/Adapter/CacheStorageAdapter.php:27-158 | operations on one logical key leave the entries and the decision of every other key unchanged |
| CacheStorage.PairingPreserved | src/Adapter/CacheStorageAdapter.php:51-116 | every operation keeps each stored failures key paired with its last-failure key under the same expiry |
| CacheStorage.SecondsTruncationRestartsStreak | src/Adapter/CacheStorageAdapter.php:62-79 | with a 500 ms timeout, failures at 1999 ms and 2000 ms leave a count of 1, because the timestamp is in whole seconds |
| CacheStorage.ThresholdScenario | src/Adapter/CacheStorageAdapter.php:27-80 | threshold 5, window 5000 ms, reset 30000 ms: four failures leave calls allowed, a fifth 100 ms later blocks them, and 30101 ms later they are allowed again |
| CacheStorage.StreakCountsEveryFailure | src/Adapter/CacheStorageAdapter.php:51-80 | on an enabled breaker with `timeout` and `resetTimeout` of at least 1000 ms, starting with neither key live, n failures at ascending times from 1000 ms on, each at most `min(timeout, resetTimeout) - 1000` ms after the previous, leave a count of n and the last time in seconds, both expiring `timeout` ms after the last failure |
| CacheStorage.StreakTripsAtThreshold | src/Adapter/CacheStorageAdapter.php:27-80 | after such a streak, within that gap of its last failure, the key is blocked iff the streak has at least `failureThreshold` failures |
| CacheStorage.WindowGapsRestartStreak | src/Adapter/CacheStorageAdapter.php:57-79 | with threshold 3 and a 5000 ms window, failures 10 s apart leave a count of 1 and calls allowed |
| PhpArrays.IndexOf | src/Factory/ConfigFactory.php:42 | the first position holding the key, or -1 exactly when the key is absent |
| PhpArrays.Get | src/Factory/ConfigFactory.php:42 | a value is found iff the key is present, and it is the one stored under that key |
| PhpArrays.Put | src/Factory/ConfigFactory.php:52 | an existing key is overwritten in place and a new key is appended; other pairs are kept, keys stay unique, and the key then reads as the new value |
| PhpArrays.Unset | src/Factory/ConfigFactory.php:49 | the key is gone and exactly the other pairs remain; in an array with unique keys they keep their relative order |
| PhpArrays.GetPutOther | src/Factory/ConfigFactory.php:52 | writing one key leaves every other key's value unchanged |
| PhpArrays.MapKeys | src/Factory/ConfigFactory.php:63-71 | the combined array has unique keys, whatever the key function; the lemmas below state its contents |
| PhpArrays.MapKeysKeys | src/Factory/ConfigFactory.php:63-71 | the combined array has unique keys, exactly the mapped input keys |
| PhpArrays.MapKeysHasKey | src/Factory/ConfigFactory.php:63-71 | a name is a key of the result iff it is the image of some input key |
| PhpArrays.MapKeysAbsent | src/Factory/ConfigFactory.php:63-71 | a name that no key maps to is absent |
| PhpArrays.MapKeysLaterWins | src/Factory/ConfigFactory.php:63-71 | under a shared name, the value of the last key mapped to it is kept |
| PhpArrays.MapKeysKeepsOrder | src/Factory/ConfigFactory.php:63-71 | without collisions, every pair keeps its position and value under its new key |
| PhpArrays.MapKeysIdempotent | src/Factory/ConfigFactory.php:63-71 | mapping again with a function that fixes its own images changes nothing |
| PhpArrays.PutHasKey | src/Factory/ConfigFactory.php:52 | the keys after a write are the old keys plus the written key |
| ConfigFactory.ConvertKeysToCamelCase | src/Factory/ConfigFactory.php:59-61 | an empty array converts to an empty array |
| ConfigFactory.StripUnderscoresRemovesAll | src/Factory/ConfigFactory.php:66 | `str_replace('_', '', ...)` leaves no `_` and changes nothing else in a string without one |
| ConfigFactory.UcWordsWithoutDelimiter | src/Factory/ConfigFactory.php:66 | `ucwords(..., '_')` changes nothing after the first character of a string without `_` |
| ConfigFactory.CamelKey | src/Factory/ConfigFactory.php:65-67 | every converted key has no `_` and no upper-case first letter |
| ConfigFactory.CamelKeyFixesCamel | src/Factory/ConfigFactory.php:65-67 | a key with no `_` and no upper-case first letter converts to itself |
| ConfigFactory.CamelKeyIdempotent | src/Factory/ConfigFactory.php:65-67 | converting a key twice is the same as converting it once |
| ConfigFactory.CamelKeyOfSnakePair | src/Factory/ConfigFactory.php:65-67 | `u_w`, with `u` starting in lower case, converts to `u` followed by `w` with an upper-case first letter |
| ConfigFactory.CamelKeyFailureThreshold | src/Factory/ConfigFactory.php:65-67 | `failure_threshold` becomes `failureThreshold`, the parameter name of `Config` |
| ConfigFactory.CamelKeyResetTimeout | src/Factory/ConfigFactory.php:65-67 | `reset_timeout` becomes `resetTimeout` |
| ConfigFactory.CamelKeyKeyPrefix | src/Factory/ConfigFactory.php:65-67 | `key_prefix` becomes `keyPrefix`, the parameter name of `CacheConfig` |
| ConfigFactory.CamelKeyCacheConnection | src/Factory/ConfigFactory.php:65-67 | `cache_connection` becomes `cacheConnection` |
| ConfigFactory.CamelKeyTimeout | src/Factory/ConfigFactory.php:65-67 | the one-word key `timeout` is unchanged |
| ConfigFactory.ConvertKeysContents | src/Factory/ConfigFactory.php:57-72 | the converted array has unique camelCase keys, every converted input key and no other key, and each holds the value of the last input key converted to it |
| ConfigFactory.ConvertKeysIdempotent | src/Factory/ConfigFactory.php:57-72 | converting an already converted array changes nothing |
| ConfigFactory.Invoke | src/Factory/ConfigFactory.php:16-38 | a success is a `Config` exactly for the local adapter and a `CacheConfig` exactly for the cache adapter, carrying the flag, with positive numbers for `Config` and a non-empty connection for `CacheConfig`; any other class gives the custom path's result |
| ConfigFactory.ResolveCustomConfig | src/Factory/ConfigFactory.php:40-55 | succeeds iff the `config` entry is a string, with that class name; a missing or null entry is the missing-class error, and any other value a type error on `config` |
| ConfigFactory.InvokeLocal | src/Factory/ConfigFactory.php:22-27 | the local adapter gets `Config` from `timeout`, `failure_threshold` and `reset_timeout`, validated as `Config` validates; other entries are ignored |
| ConfigFactory.InvokeCache | src/Factory/ConfigFactory.php:28-35 | the cache adapter gets `CacheConfig` from five entries, and it is accepted whatever its numbers iff the connection is not PHP-empty |
| ConfigFactory.InvokeMissingArgument | src/Factory/ConfigFactory.php:21-35 | a missing `timeout` is a type error naming `timeout`, for both adapters |
| ConfigFactory.InvokeCustom | src/Factory/ConfigFactory.php:36-47 | any other adapter takes the custom path, which fails without a `config` entry and succeeds only with a string class name |
| ConfigFactory.ArgumentKeys | src/Factory/ConfigFactory.php:49-52 | for any key converter, the arguments have unique keys: `enabled`, holding the flag, plus the converted keys of the entries other than `config` and `service` |
| ConfigFactory.ResolveCustomShape | src/Factory/ConfigFactory.php:42-54 | unfolds the string branch of `resolveCustomConfig`: the class is the `config` string and the arguments are the entries without `config` and `service`, keys converted, with `enabled` written last |
| ConfigFactory.ResolveCustomArguments | src/Factory/ConfigFactory.php:40-54 | with a string `config` entry, the class is that name and the arguments are exactly `enabled`, set to the flag, plus the camelCase keys of the remaining entries |

## Left out

- Time comes from Carbon, which is replaced by an explicit `now` in milliseconds. In the local adapter, `diffInMilliseconds` is taken as `now - last_failure`. Its sign convention differs between Carbon versions, and this is the non-negative reading for a clock that does not run backwards.
- Cache TTLs are modelled in milliseconds. Laravel rounds a `DateInterval` TTL to whole seconds, and that rounding is not modelled. The effect of the whole-second timestamp is modelled.
- `resolveCache` (`Cache::store(...)`) is not modelled. The adapter is given the repository that store would return.
- An unreachable cache, and races between processes sharing one cache, are not modelled. Every repository call succeeds at once.
- The cache holds only integers. The adapter stores nothing else.
- `class_exists` and the reflective `new $configClass(...$arguments)` are not modelled: they are runtime calls on code outside the package. The custom path stops at the class name and its argument array. A string naming a missing class is therefore a success here.
- PHP arrays are modelled with string keys only. Integer keys and type juggling between `"1"` and `1` are not modelled. A value of any other type passed where the constructor declares `int` or `string` is a type error, as under `strict_types`.
- The local adapter has no `forceReset`, as in the source. The interface the two adapters share is not modelled as a type. The two classes have the same operations.
- The exception messages are given by `Configuration.Message`. The message of the custom path's exception is not modelled.
