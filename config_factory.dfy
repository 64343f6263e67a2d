/**
 * `ConfigFactory` (src/Factory/ConfigFactory.php): builds the tuning record an
 * adapter needs from the plain configuration array, choosing by the adapter's
 * class name, and for any other adapter prepares the argument array of its
 * own configuration class, with snake_case keys turned into camelCase.
 */
module ConfigFactory {
  import opened Wrappers
  import opened Configuration
  import opened PhpArrays

  // ------------------------------------------------------------ camelCase

  predicate IsUpper(c: char) { 'A' <= c <= 'Z' }
  predicate IsLower(c: char) { 'a' <= c <= 'z' }

  /** ASCII `strtoupper` of one character. */
  function Upper(c: char): char {
    if IsLower(c) then (c as int - 32) as char else c
  }

  /** ASCII `strtolower` of one character. */
  function Lower(c: char): char {
    if IsUpper(c) then (c as int + 32) as char else c
  }

  /** `ucwords($s, '_')` on the rest of a string: upper-cases the first
      character when `afterDelimiter`, and every character after a `_`. */
  function UcWordsFrom(s: string, afterDelimiter: bool): string
    decreases |s|
  {
    if s == [] then []
    else [if afterDelimiter then Upper(s[0]) else s[0]] + UcWordsFrom(s[1..], s[0] == '_')
  }

  /** `ucwords($s, '_')`: the first character counts as following a delimiter. */
  function UcWords(s: string): string {
    UcWordsFrom(s, true)
  }

  /** `str_replace('_', '', $s)`. */
  function StripUnderscores(s: string): string {
    if s == [] then []
    else
      var rest := StripUnderscores(s[1..]);
      if s[0] == '_' then rest else [s[0]] + rest
  }

  /** `lcfirst($s)`. */
  function LcFirst(s: string): string {
    if s == [] then [] else [Lower(s[0])] + s[1..]
  }

  /** The key converter of `convertKeysToCamelCase`. */
  function CamelKey(key: string): (r: string)
    ensures IsCamel(r)
  {
    StripUnderscoresRemovesAll(UcWords(key));
    LcFirst(StripUnderscores(UcWords(key)))
  }

  /** The camelCase keys: no `_`, and no upper-case first letter. */
  predicate IsCamel(s: string) {
    '_' !in s && (s != [] ==> !IsUpper(s[0]))
  }

  /** `convertKeysToCamelCase`: every key converted by `CamelKey`, values
      kept (see `PhpArrays.MapKeys`). */
  function ConvertKeysToCamelCase(a: PhpArray): (r: PhpArray)
    ensures a == [] ==> r == []
  {
    if a == [] then [] else MapKeys(a, CamelKey)
  }

  // ------------------------------------------------------------ dispatch

  const LocalAdapterClass: string := "Haaragard\\CircuitBreaker\\Adapter\\LocalStorageAdapter"
  const CacheAdapterClass: string := "Haaragard\\CircuitBreaker\\Adapter\\CacheStorageAdapter"

  datatype FactoryError =
    /** A constructor argument is missing or of the wrong type (PHP's `TypeError`
        under strict types); names the configuration key it was read from. */
    | ArgumentTypeError(key: string)
    /** The record's own validation failed. */
    | Invalid(reason: ConfigError)
    /** The custom path found no configuration class name. */
    | ConfigClassMissing

  /** What the factory builds: a local record, a cache record, or for a custom
      adapter the class to instantiate with its named arguments (the
      instantiation itself is not part of this model). */
  datatype BuiltConfig =
    | LocalConfig(config: Config)
    | SharedConfig(cacheConfig: CacheConfig)
    | CustomConfig(configClass: string, arguments: PhpArray)

  function IntArgument(a: PhpArray, key: string): Result<int, FactoryError> {
    match Get(a, key)
    case Some(Int(i)) => Success(i)
    case _ => Failure(ArgumentTypeError(key))
  }

  function StringArgument(a: PhpArray, key: string): Result<string, FactoryError> {
    match Get(a, key)
    case Some(Str(s)) => Success(s)
    case _ => Failure(ArgumentTypeError(key))
  }

  /** `resolveCustomConfig`: needs a `config` entry naming the class; drops the
      `config` and `service` entries, converts the remaining keys to camelCase
      and sets `enabled`. */
  function ResolveCustomConfig(isEnabled: bool, config: PhpArray): (r: Result<BuiltConfig, FactoryError>)
    ensures r.Success? <==> Get(config, "config").Some? && Get(config, "config").value.Str?
    ensures r.Success? ==> r.value.CustomConfig? && r.value.configClass == Get(config, "config").value.s
    ensures r == Failure(ConfigClassMissing) <==> Get(config, "config") in {None, Some(Null)}
    ensures r.Failure? && r.error != ConfigClassMissing ==> r.error == ArgumentTypeError("config")
  {
    match Get(config, "config")
    case None => Failure(ConfigClassMissing)
    case Some(Null) => Failure(ConfigClassMissing)
    case Some(Str(configClass)) =>
      var rest := Unset(Unset(config, "config"), "service");
      Success(CustomConfig(configClass, Put(ConvertKeysToCamelCase(rest), "enabled", Bool(isEnabled))))
    case Some(_) => Failure(ArgumentTypeError("config"))
  }

  /** `__invoke`: the `match` on the adapter class name. Arguments are checked
      in the constructor's parameter order, then the record validates itself. */
  function Invoke(serviceClass: string, isEnabled: bool, config: PhpArray): (r: Result<BuiltConfig, FactoryError>)
    ensures r.Success? ==> (r.value.LocalConfig? <==> serviceClass == LocalAdapterClass)
    ensures r.Success? ==> (r.value.SharedConfig? <==> serviceClass == CacheAdapterClass)
    ensures r.Success? && r.value.LocalConfig? ==>
      var c := r.value.config;
      c.enabled == isEnabled && c.timeout > 0 && c.failureThreshold > 0 && c.resetTimeout > 0
    ensures r.Success? && r.value.SharedConfig? ==>
      r.value.cacheConfig.enabled == isEnabled && !PhpEmpty(r.value.cacheConfig.cacheConnection)
    ensures serviceClass != LocalAdapterClass && serviceClass != CacheAdapterClass ==>
      r == ResolveCustomConfig(isEnabled, config)
  {
    if serviceClass == LocalAdapterClass then
      match (IntArgument(config, "timeout"), IntArgument(config, "failure_threshold"), IntArgument(config, "reset_timeout"))
      case (Failure(e), _, _) => Failure(e)
      case (_, Failure(e), _) => Failure(e)
      case (_, _, Failure(e)) => Failure(e)
      case (Success(t), Success(f), Success(r)) =>
        match NewConfig(isEnabled, t, f, r)
        case Success(c) => Success(LocalConfig(c))
        case Failure(e) => Failure(Invalid(e))
    else if serviceClass == CacheAdapterClass then
      match (IntArgument(config, "timeout"), IntArgument(config, "failure_threshold"), IntArgument(config, "reset_timeout"),
             StringArgument(config, "key_prefix"), StringArgument(config, "cache_connection"))
      case (Failure(e), _, _, _, _) => Failure(e)
      case (_, Failure(e), _, _, _) => Failure(e)
      case (_, _, Failure(e), _, _) => Failure(e)
      case (_, _, _, Failure(e), _) => Failure(e)
      case (_, _, _, _, Failure(e)) => Failure(e)
      case (Success(t), Success(f), Success(r), Success(p), Success(c)) =>
        match NewCacheConfig(isEnabled, t, f, r, p, c)
        case Success(cc) => Success(SharedConfig(cc))
        case Failure(e) => Failure(Invalid(e))
    else
      ResolveCustomConfig(isEnabled, config)
  }

  // ---------------------------------------------------------------- lemmas

  lemma {:induction false} StripUnderscoresRemovesAll(s: string)
    ensures '_' !in StripUnderscores(s)
    ensures '_' !in s ==> StripUnderscores(s) == s
    decreases |s|
  {
    if s != [] {
      StripUnderscoresRemovesAll(s[1..]);
      assert '_' !in s ==> '_' !in s[1..];
    }
  }

  lemma {:induction false} StripUnderscoresConcat(s: string, t: string)
    ensures StripUnderscores(s + t) == StripUnderscores(s) + StripUnderscores(t)
    decreases |s|
  {
    if s != [] {
      assert (s + t)[0] == s[0];
      assert (s + t)[1..] == s[1..] + t;
      StripUnderscoresConcat(s[1..], t);
    } else {
      assert s + t == t;
    }
  }

  lemma {:induction false} UcWordsWithoutDelimiter(s: string)
    requires '_' !in s
    ensures UcWordsFrom(s, false) == s
    decreases |s|
  {
    if s != [] {
      assert '_' !in s[1..];
      UcWordsWithoutDelimiter(s[1..]);
    }
  }

  /** A key with no `_` and no upper-case first letter is left unchanged. */
  lemma CamelKeyFixesCamel(s: string)
    requires IsCamel(s)
    ensures CamelKey(s) == s
  {
    if s != [] {
      UcWordsWithoutDelimiter(s[1..]);
      assert UcWords(s) == [Upper(s[0])] + s[1..];
      StripUnderscoresRemovesAll(UcWords(s));
    }
  }

  /** Converting a key twice is the same as converting it once. */
  lemma CamelKeyIdempotent(key: string)
    ensures CamelKey(CamelKey(key)) == CamelKey(key)
  {
    CamelKeyFixesCamel(CamelKey(key));
  }

  lemma {:induction false} UcWordsConcat(s: string, t: string, afterDelimiter: bool)
    requires s != []
    ensures UcWordsFrom(s + t, afterDelimiter) == UcWordsFrom(s, afterDelimiter) + UcWordsFrom(t, s[|s| - 1] == '_')
    decreases |s|
  {
    assert (s + t)[1..] == s[1..] + t;
    if |s| > 1 {
      UcWordsConcat(s[1..], t, s[0] == '_');
    }
  }

  lemma UcWordsOfWord(u: string)
    requires u != [] && '_' !in u
    ensures UcWordsFrom(u, true) == [Upper(u[0])] + u[1..]
  {
    assert '_' !in u[1..];
    UcWordsWithoutDelimiter(u[1..]);
  }

  lemma UcWordsOfWordAndUnderscore(u: string)
    requires u != [] && '_' !in u
    ensures UcWordsFrom(u + "_", true) == UcWordsFrom(u, true) + "_"
  {
    assert u[|u| - 1] in u;
    UcWordsConcat(u, "_", true);
    assert UcWordsFrom("_", false) == "_";
  }

  lemma UcWordsOfSnakePair(u: string, w: string)
    requires u != [] && w != [] && '_' !in u && '_' !in w
    ensures UcWords(u + "_" + w) == [Upper(u[0])] + u[1..] + "_" + [Upper(w[0])] + w[1..]
  {
    var x := u + "_";
    UcWordsOfWord(u);
    UcWordsOfWord(w);
    UcWordsOfWordAndUnderscore(u);
    assert x[|x| - 1] == '_';
    UcWordsConcat(x, w, true);
  }

  lemma StripUnderscoresOfPair(uc: string, wc: string)
    requires '_' !in uc && '_' !in wc
    ensures StripUnderscores(uc + "_" + wc) == uc + wc
  {
    var u := uc + "_";
    assert StripUnderscores("_") == [] by {
      assert "_"[1..] == [];
    }
    assert StripUnderscores(u) == uc by {
      StripUnderscoresConcat(uc, "_");
      StripUnderscoresRemovesAll(uc);
    }
    assert StripUnderscores(u + wc) == uc + wc by {
      StripUnderscoresConcat(u, wc);
      StripUnderscoresRemovesAll(wc);
    }
  }

  /** A two-word snake_case key `u_w` whose first word starts in lower case
      becomes `u` followed by `w` with its first letter in upper case. */
  lemma CamelKeyOfSnakePair(u: string, w: string)
    requires u != [] && w != [] && '_' !in u && '_' !in w && IsLower(u[0])
    ensures CamelKey(u + "_" + w) == u + [Upper(w[0])] + w[1..]
  {
    UcWordsOfSnakePair(u, w);
    var uc := [Upper(u[0])] + u[1..];
    var wc := [Upper(w[0])] + w[1..];
    assert UcWords(u + "_" + w) == uc + "_" + wc;
    StripUnderscoresOfPair(uc, wc);
    assert (uc + wc)[1..] == u[1..] + wc;
  }

  /** The `Config` key `failure_threshold` becomes `failureThreshold`. */
  lemma CamelKeyFailureThreshold()
    ensures CamelKey("failure_threshold") == "failureThreshold"
  {
    var u, w := "failure", "threshold";
    assert '_' !in u && '_' !in w && IsLower(u[0]);
    CamelKeyOfSnakePair(u, w);
    assert u + "_" + w == "failure_threshold";
    assert u + [Upper(w[0])] + w[1..] == "failureThreshold";
  }

  /** The `Config` key `reset_timeout` becomes `resetTimeout`. */
  lemma CamelKeyResetTimeout()
    ensures CamelKey("reset_timeout") == "resetTimeout"
  {
    var u, w := "reset", "timeout";
    assert '_' !in u && '_' !in w && IsLower(u[0]);
    CamelKeyOfSnakePair(u, w);
    assert u + "_" + w == "reset_timeout";
    assert u + [Upper(w[0])] + w[1..] == "resetTimeout";
  }

  /** The `CacheConfig` key `key_prefix` becomes `keyPrefix`. */
  lemma CamelKeyKeyPrefix()
    ensures CamelKey("key_prefix") == "keyPrefix"
  {
    var u, w := "key", "prefix";
    assert '_' !in u && '_' !in w && IsLower(u[0]);
    CamelKeyOfSnakePair(u, w);
    assert u + "_" + w == "key_prefix";
    assert u + [Upper(w[0])] + w[1..] == "keyPrefix";
  }

  /** The `CacheConfig` key `cache_connection` becomes `cacheConnection`. */
  lemma CamelKeyCacheConnection()
    ensures CamelKey("cache_connection") == "cacheConnection"
  {
    var u, w := "cache", "connection";
    assert '_' !in u && '_' !in w && IsLower(u[0]);
    CamelKeyOfSnakePair(u, w);
    assert u + "_" + w == "cache_connection";
    assert u + [Upper(w[0])] + w[1..] == "cacheConnection";
  }

  /** A one-word key such as `timeout` is unchanged. */
  lemma CamelKeyTimeout()
    ensures CamelKey("timeout") == "timeout"
  {
    CamelKeyFixesCamel("timeout");
  }

  /** The converted array has unique camelCase keys, exactly the converted
      input keys; each carries the value of the last input key converted to
      it. */
  lemma ConvertKeysContents(a: PhpArray, j: int)
    requires 0 <= j < |a|
    requires forall m :: j < m < |a| ==> CamelKey(a[m].0) != CamelKey(a[j].0)
    ensures var r := ConvertKeysToCamelCase(a);
      && UniqueKeys(r)
      && (forall i :: 0 <= i < |r| ==> IsCamel(r[i].0))
      && (forall i :: 0 <= i < |a| ==> HasKey(r, CamelKey(a[i].0)))
      && (forall i :: 0 <= i < |r| ==> exists m :: 0 <= m < |a| && CamelKey(a[m].0) == r[i].0)
      && Get(r, CamelKey(a[j].0)) == Some(a[j].1)
  {
    var r := ConvertKeysToCamelCase(a);
    ConvertIsMapKeys(a);
    MapKeysKeys(a, CamelKey);
    MapKeysLaterWins(a, CamelKey, j);
    forall i | 0 <= i < |r| ensures IsCamel(r[i].0) {
      var m :| 0 <= m < |a| && CamelKey(a[m].0) == r[i].0;
    }
  }

  /** Converting an already converted array changes nothing. */
  lemma ConvertKeysIdempotent(a: PhpArray)
    ensures ConvertKeysToCamelCase(ConvertKeysToCamelCase(a)) == ConvertKeysToCamelCase(a)
  {
    if a != [] {
      forall k ensures CamelKey(CamelKey(k)) == CamelKey(k) {
        CamelKeyIdempotent(k);
      }
      MapKeysIdempotent(a, CamelKey);
      var b := MapKeys(a, CamelKey);
      assert b != [] by { MapKeysKeys(a, CamelKey); assert HasKey(b, CamelKey(a[0].0)); }
    }
  }

  /** The local adapter gets a `Config` from `timeout`, `failure_threshold`
      and `reset_timeout`, validated as `Config` validates; other entries are
      ignored. */
  lemma InvokeLocal(isEnabled: bool, config: PhpArray, t: int, f: int, r: int)
    requires Get(config, "timeout") == Some(Int(t))
    requires Get(config, "failure_threshold") == Some(Int(f))
    requires Get(config, "reset_timeout") == Some(Int(r))
    ensures Invoke(LocalAdapterClass, isEnabled, config) ==
      if t > 0 && f > 0 && r > 0 then Success(LocalConfig(Config(isEnabled, t, f, r)))
      else Failure(Invalid(NewConfig(isEnabled, t, f, r).error))
  {
  }

  /** The cache adapter also gets `key_prefix` and `cache_connection`, and is
      accepted whatever its numbers, as long as the connection is not empty. */
  lemma InvokeCache(isEnabled: bool, config: PhpArray, t: int, f: int, r: int, p: string, c: string)
    requires Get(config, "timeout") == Some(Int(t))
    requires Get(config, "failure_threshold") == Some(Int(f))
    requires Get(config, "reset_timeout") == Some(Int(r))
    requires Get(config, "key_prefix") == Some(Str(p))
    requires Get(config, "cache_connection") == Some(Str(c))
    ensures Invoke(CacheAdapterClass, isEnabled, config) ==
      if !PhpEmpty(c) then Success(SharedConfig(CacheConfig(isEnabled, t, f, r, p, c)))
      else Failure(Invalid(CacheConnectionEmpty))
  {
  }

  /** A missing or ill-typed argument is reported by its key, first in the
      constructor's parameter order. */
  lemma InvokeMissingArgument(isEnabled: bool, config: PhpArray)
    requires !HasKey(config, "timeout")
    ensures Invoke(LocalAdapterClass, isEnabled, config) == Failure(ArgumentTypeError("timeout"))
    ensures Invoke(CacheAdapterClass, isEnabled, config) == Failure(ArgumentTypeError("timeout"))
  {
  }

  /** Any other adapter goes down the custom path, which fails without a
      `config` entry; otherwise its arguments are the remaining entries with
      converted keys, `enabled` set to the flag, and nothing else. */
  lemma InvokeCustom(serviceClass: string, isEnabled: bool, config: PhpArray)
    requires serviceClass != LocalAdapterClass && serviceClass != CacheAdapterClass
    ensures Invoke(serviceClass, isEnabled, config) == ResolveCustomConfig(isEnabled, config)
    ensures !HasKey(config, "config") ==> Invoke(serviceClass, isEnabled, config) == Failure(ConfigClassMissing)
    ensures Invoke(serviceClass, isEnabled, config).Success? ==> Get(config, "config").value.Str?
  {
  }

  /** The keys of `arguments` are `enabled` and the images under `f` of the
      keys of `config` other than `config` and `service`. */
  ghost predicate ArgumentKeysFrom(arguments: PhpArray, config: PhpArray, f: string -> string) {
    forall k :: HasKey(arguments, k) <==>
      (k == "enabled" || exists p :: p in config && p.0 != "config" && p.0 != "service" && f(p.0) == k)
  }

  /** The keys of the custom path's arguments, for any key converter `f`. */
  lemma ArgumentKeys(config: PhpArray, f: string -> string, enabled: Value)
    ensures var args := Put(MapKeys(Unset(Unset(config, "config"), "service"), f), "enabled", enabled);
      && UniqueKeys(args)
      && Get(args, "enabled") == Some(enabled)
      && ArgumentKeysFrom(args, config, f)
  {
    var rest := Unset(Unset(config, "config"), "service");
    var converted := MapKeys(rest, f);
    var args := Put(converted, "enabled", enabled);
    MapKeysKeys(rest, f);
    forall k ensures HasKey(args, k) <==>
      (k == "enabled" || exists p :: p in config && p.0 != "config" && p.0 != "service" && f(p.0) == k)
    {
      PutHasKey(converted, "enabled", enabled, k);
      MapKeysHasKey(rest, f, k);
    }
  }

  /** With a string `config` entry, the custom path names that class and
      passes the remaining entries with converted keys, plus `enabled`. */
  lemma ResolveCustomShape(isEnabled: bool, config: PhpArray, configClass: string)
    requires Get(config, "config") == Some(Str(configClass))
    ensures ResolveCustomConfig(isEnabled, config) ==
      Success(CustomConfig(configClass, Put(MapKeys(Unset(Unset(config, "config"), "service"), CamelKey), "enabled", Bool(isEnabled))))
  {
    var rest := Unset(Unset(config, "config"), "service");
    ConvertIsMapKeys(rest);
  }

  lemma ConvertIsMapKeys(a: PhpArray)
    ensures ConvertKeysToCamelCase(a) == MapKeys(a, CamelKey)
  {
    if a == [] {
      assert MapKeys(a, CamelKey) == [];
    }
  }

  /** A custom configuration class gets exactly the entries other than
      `config` and `service`, under converted keys, plus `enabled` set to the
      flag. */
  lemma ResolveCustomArguments(isEnabled: bool, config: PhpArray, configClass: string)
    requires Get(config, "config") == Some(Str(configClass))
    ensures ResolveCustomConfig(isEnabled, config).Success?
    ensures var built := ResolveCustomConfig(isEnabled, config).value;
      && built.configClass == configClass
      && UniqueKeys(built.arguments)
      && Get(built.arguments, "enabled") == Some(Bool(isEnabled))
      && ArgumentKeysFrom(built.arguments, config, CamelKey)
  {
    ResolveCustomShape(isEnabled, config, configClass);
    ArgumentKeys(config, CamelKey, Bool(isEnabled));
  }
}
