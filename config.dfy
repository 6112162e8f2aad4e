/**
 * `ConfigService`: layered configuration lookup. A value comes from the process environment
 * first, then from the internal configuration given to the constructor, then from the caller's
 * default. Environment values that are defined are also written to a cache, which is read only
 * when the cache flag is on; the flag starts off and nothing in the service turns it on.
 *
 * The environment is passed to each call, so a changed environment is simply a different map.
 */
module Config {
  import opened Wrappers
  import opened Values

  /** `process.env`: variable names to their values. */
  type Env = map<string, string>

  /**
   * lodash `get(process.env, path)`. The environment is flat and its values are strings, so only
   * a one-segment path names a variable; a longer path would read a property of a string, which
   * is `undefined` for every name this model allows. Inherited `Object.prototype` members are
   * not variables here.
   */
  function EnvLookup(env: Env, path: Path): Option<Value>
  {
    if |path| == 1 && path[0] in env then Some(Str(env[path[0]])) else None
  }

  /**
   * Whether the second argument of `get` is an options object rather than a default: a truthy
   * object whose only own key is `infer`, holding a truthy value. Anything else (a string, a
   * number, an `Error`) has no `infer` property.
   */
  predicate IsGetOptionsObject(v: Option<Value>)
  {
    match v
    case Some(Obj(fields)) => |fields| == 1 && TruthyOpt(FindField(fields, "infer"))
    case _ => false
  }

  /** The default `get` falls back to: none when the second argument is an options object and no third is given. */
  function EffectiveDefault(defaultOrOptions: Option<Value>, options: Option<Value>): Option<Value>
  {
    if IsGetOptionsObject(defaultOrOptions) && !TruthyOpt(options) then None else defaultOrOptions
  }

  /** `getFromCache`: the cached value at the path, or the default when there is none. */
  function FromCache(cache: seq<Field>, path: Path, default: Option<Value>): Option<Value>
  {
    var cached := Lookup(Obj(cache), path);
    if cached.None? then default else cached
  }

  /** What `getFromProcessEnv` returns, given the cache flag and contents before the call. */
  function FromProcessEnv(enabled: bool, cache: seq<Field>, env: Env, path: Path, default: Option<Value>): Option<Value>
  {
    if enabled && Has(Obj(cache), path) then
      var cached := FromCache(cache, path, default);
      if cached.Some? then cached else default
    else EnvLookup(env, path)
  }

  /** The cache after `getFromProcessEnv`: a defined environment value is stored at the path. */
  function CacheAfter(enabled: bool, cache: seq<Field>, env: Env, path: Path): seq<Field>
  {
    if enabled && Has(Obj(cache), path) then cache
    else
      match EnvLookup(env, path)
      case Some(v) => SetIn(cache, path, v)
      case None => cache
  }

  /** What `get` returns: the first defined of the environment side, the internal config and the default. */
  function Answer(enabled: bool, cache: seq<Field>, internalConfig: seq<Field>, env: Env, path: Path,
                  defaultOrOptions: Option<Value>, options: Option<Value>): Option<Value>
  {
    var default := EffectiveDefault(defaultOrOptions, options);
    var fromEnv := FromProcessEnv(enabled, cache, env, path, default);
    if fromEnv.Some? then fromEnv
    else
      var internal := Lookup(Obj(internalConfig), path);
      if internal.Some? then internal else default
  }

  class ConfigService {
    const internalConfig: seq<Field>
    var cache: seq<Field>
    var isCacheEnabled: bool

    /** The cache only ever holds strings, in nested objects: it is fed by the environment alone. */
    ghost predicate Valid()
      reads this
    {
      StringTree(cache)
    }

    constructor(internalConfig: seq<Field>)
      ensures this.internalConfig == internalConfig
      ensures cache == [] && !isCacheEnabled
      ensures Valid()
    {
      this.internalConfig := internalConfig;
      cache := [];
      isCacheEnabled := false;
    }

    /** The private setter of the flag (no caller in the service). */
    method SetCacheEnabled(value: bool)
      modifies this
      ensures isCacheEnabled == value && cache == old(cache)
    {
      isCacheEnabled := value;
    }

    /** `setInCacheIfDefined`: lodash `set` on the cache, skipped for `undefined`. */
    method SetInCacheIfDefined(path: Path, value: Option<Value>)
      modifies this
      ensures value.Some? ==> cache == SetIn(old(cache), path, value.value)
      ensures value.None? ==> cache == old(cache)
      ensures isCacheEnabled == old(isCacheEnabled)
    {
      if value.Some? {
        cache := SetIn(cache, path, value.value);
      }
    }

    /** `getFromInternalConfig`: lodash `get` on the constructor's configuration. */
    function GetFromInternalConfig(path: Path): Option<Value>
    {
      Lookup(Obj(internalConfig), path)
    }

    /** `getFromProcessEnv`: the cache when it is on and holds the path; otherwise the environment, which is cached. */
    method GetFromProcessEnv(env: Env, path: Path, default: Option<Value>) returns (r: Option<Value>)
      modifies this
      ensures r == FromProcessEnv(old(isCacheEnabled), old(cache), env, path, default)
      ensures cache == CacheAfter(old(isCacheEnabled), old(cache), env, path)
      ensures isCacheEnabled == old(isCacheEnabled)
    {
      if isCacheEnabled && Has(Obj(cache), path) {
        var cachedValue := FromCache(cache, path, default);
        r := if cachedValue.Some? then cachedValue else default;
        return;
      }
      var processValue := EnvLookup(env, path);
      SetInCacheIfDefined(path, processValue);
      r := processValue;
    }

    /**
     * `get(path, defaultOrOptions, options)`: the environment value if defined (even `""`), else the
     * internal configuration's, else the default. A defined environment value read here is cached,
     * after which the cache holds it at the path; `undefined` is never stored.
     */
    method Get(env: Env, path: Path, defaultOrOptions: Option<Value>, options: Option<Value>) returns (r: Option<Value>)
      requires Valid()
      modifies this
      ensures Valid()
      ensures r == Answer(old(isCacheEnabled), old(cache), internalConfig, env, path, defaultOrOptions, options)
      ensures cache == CacheAfter(old(isCacheEnabled), old(cache), env, path)
      ensures isCacheEnabled == old(isCacheEnabled)
      ensures EnvLookup(env, path).None? ==> cache == old(cache)
      ensures !(old(isCacheEnabled) && Has(Obj(old(cache)), path)) ==>
        EnvLookup(env, path).Some? ==> Lookup(Obj(cache), path) == EnvLookup(env, path)
      ensures old(isCacheEnabled) && Has(Obj(old(cache)), path) ==> r.Some? && StringLeaf(r.value)
    {
      var default := EffectiveDefault(defaultOrOptions, options);
      ghost var enabled, before := isCacheEnabled, cache;
      var processEnvValue := GetFromProcessEnv(env, path, default);
      CacheAfterKeepsStrings(enabled, before, env, path);
      if enabled && Has(Obj(before), path) {
        CachedAnswerIsString(before, internalConfig, env, path, defaultOrOptions, options);
      }
      if EnvLookup(env, path).Some? && !(enabled && Has(Obj(before), path)) {
        SetThenLookup(before, path, EnvLookup(env, path).value);
      }
      if processEnvValue.Some? {
        return processEnvValue;
      }
      var internalValue := GetFromInternalConfig(path);
      if internalValue.Some? {
        return internalValue;
      }
      return default;
    }
  }

  /** Whatever a call stores, the cache keeps holding strings only. */
  lemma CacheAfterKeepsStrings(enabled: bool, cache: seq<Field>, env: Env, path: Path)
    requires StringTree(cache)
    ensures StringTree(CacheAfter(enabled, cache, env, path))
  {
    if !(enabled && Has(Obj(cache), path)) && EnvLookup(env, path).Some? {
      SetKeepsStringTree(cache, path, env[path[0]]);
    }
  }

  /** A defined environment value wins over the internal configuration and the default, even `""`. */
  lemma EnvironmentFirst(cache: seq<Field>, internalConfig: seq<Field>, env: Env, path: Path,
                         defaultOrOptions: Option<Value>, options: Option<Value>)
    requires EnvLookup(env, path).Some?
    ensures Answer(false, cache, internalConfig, env, path, defaultOrOptions, options) == EnvLookup(env, path)
  {
  }

  /** With no environment value, a defined internal value wins over the default. */
  lemma InternalSecond(cache: seq<Field>, internalConfig: seq<Field>, env: Env, path: Path,
                       defaultOrOptions: Option<Value>, options: Option<Value>)
    requires EnvLookup(env, path).None? && Lookup(Obj(internalConfig), path).Some?
    ensures Answer(false, cache, internalConfig, env, path, defaultOrOptions, options) == Lookup(Obj(internalConfig), path)
  {
  }

  /** With neither, the effective default is returned (`undefined` when none was given); a missing path never fails. */
  lemma DefaultLast(cache: seq<Field>, internalConfig: seq<Field>, env: Env, path: Path,
                    defaultOrOptions: Option<Value>, options: Option<Value>)
    requires EnvLookup(env, path).None? && Lookup(Obj(internalConfig), path).None?
    ensures Answer(false, cache, internalConfig, env, path, defaultOrOptions, options) == EffectiveDefault(defaultOrOptions, options)
  {
  }

  /** A lone options object `{infer: <truthy>}` is not a default; with a third argument, or with any other key, it is. */
  lemma OptionsObjectIsNotDefault(infer: Value, options: Option<Value>)
    requires Truthy(infer)
    ensures EffectiveDefault(Some(Obj([Field("infer", infer)])), options) == (if TruthyOpt(options) then Some(Obj([Field("infer", infer)])) else None)
    ensures var two := Some(Obj([Field("infer", infer), Field("x", Null)])); EffectiveDefault(two, options) == two
  {
  }

  /** While the flag is off, the cache's contents never change a result. */
  lemma CacheUnreadWhileDisabled(cache1: seq<Field>, cache2: seq<Field>, internalConfig: seq<Field>, env: Env, path: Path,
                                 defaultOrOptions: Option<Value>, options: Option<Value>)
    ensures Answer(false, cache1, internalConfig, env, path, defaultOrOptions, options)
         == Answer(false, cache2, internalConfig, env, path, defaultOrOptions, options)
  {
  }

  /** With the flag on and the path cached, the cached value is returned whatever the environment now holds. */
  lemma CachedValueSkipsEnvironment(cache: seq<Field>, internalConfig: seq<Field>, env1: Env, env2: Env, path: Path,
                                    defaultOrOptions: Option<Value>, options: Option<Value>)
    requires Has(Obj(cache), path)
    ensures Answer(true, cache, internalConfig, env1, path, defaultOrOptions, options) == Lookup(Obj(cache), path)
    ensures Answer(true, cache, internalConfig, env2, path, defaultOrOptions, options) == Lookup(Obj(cache), path)
  {
  }

  /** With the cache on and valid, a hit answers with a string (or a tree of strings), never a number, boolean or `null`. */
  lemma CachedAnswerIsString(cache: seq<Field>, internalConfig: seq<Field>, env: Env, path: Path,
                             defaultOrOptions: Option<Value>, options: Option<Value>)
    requires StringTree(cache) && Has(Obj(cache), path)
    ensures var r := Answer(true, cache, internalConfig, env, path, defaultOrOptions, options);
      r.Some? && StringLeaf(r.value)
  {
    LookupInStringTree(cache, path);
  }
}
