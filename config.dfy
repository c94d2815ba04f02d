/**
 * Configuration loading (internal/config/config.go). The process environment
 * is a parameter, a map from variable names to values (`os.Getenv` gives ""
 * for a name it does not hold), and `time.ParseDuration` is a parameter too.
 */
module Config {
  import opened Wrappers
  import opened Times
  import opened Strconv

  type Env = map<string, string>

  /** `os.Getenv`. */
  function Getenv(env: Env, key: string): string {
    if key in env then env[key] else ""
  }

  /** `getEnv`: the variable's value unless it is unset or empty. */
  function GetEnv(env: Env, key: string, default: string): (v: string)
    ensures v != "" <==> Getenv(env, key) != "" || default != ""
  {
    var value := Getenv(env, key);
    if value != "" then value else default
  }

  /** `getDurationEnv`: the parsed variable, unless it is unset, empty or unparsable. */
  function GetDurationEnv(env: Env, key: string, default: Duration,
                          parseDuration: string -> Option<Duration>): Duration
  {
    var value := Getenv(env, key);
    if value != "" && parseDuration(value).Some? then parseDuration(value).value else default
  }

  /** `getUint64Env`: the variable read as a base-10 uint64, unless that fails. */
  function GetUint64Env(env: Env, key: string, default: nat): nat {
    var value := Getenv(env, key);
    if value != "" && ParseUint(value).err == None then
      ParseUintBounds(value);
      ParseUint(value).value
    else default
  }

  /**
   * `getUint64Env` falls back to the default exactly when the variable is not
   * a non-empty string of decimal digits that fits in 64 bits; otherwise it
   * returns the number those digits denote.
   */
  lemma GetUint64EnvCorrect(env: Env, key: string, default: nat)
    ensures var value := Getenv(env, key);
      if value != "" && AllDigits(value) && DigitsValue(value) <= MaxUint64
      then GetUint64Env(env, key, default) == DigitsValue(value)
      else GetUint64Env(env, key, default) == default
  {
    ParseUintCorrect(Getenv(env, key));
  }

  /** A variable holding the decimal form of a 64-bit number is read back as that number. */
  lemma GetUint64EnvFormat(env: Env, key: string, default: nat, n: nat)
    requires n <= MaxUint64 && Getenv(env, key) == FormatNat(n)
    ensures GetUint64Env(env, key, default) == n
  {
    ParseUintFormat(n);
  }

  datatype ServerConfig = ServerConfig(
    port: string, readTimeout: Duration, writeTimeout: Duration, idleTimeout: Duration)

  datatype DatabaseConfig = DatabaseConfig(
    uri: string, database: string, timeout: Duration, maxPoolSize: nat)

  datatype JwtConfig = JwtConfig(secret: string, expiration: Duration)

  datatype AppConfig = AppConfig(server: ServerConfig, database: DatabaseConfig, jwt: JwtConfig)

  /** The ten environment variables `Load` consults. */
  const Keys: seq<string> := ["PORT", "READ_TIMEOUT", "WRITE_TIMEOUT", "IDLE_TIMEOUT",
                              "MONGODB_URI", "DATABASE_NAME", "DB_TIMEOUT", "DB_MAX_POOL_SIZE",
                              "JWT_SECRET", "JWT_EXPIRATION"]

  /** `Load`. */
  function Load(env: Env, parseDuration: string -> Option<Duration>): AppConfig {
    AppConfig(
      ServerConfig(
        GetEnv(env, "PORT", "8080"),
        GetDurationEnv(env, "READ_TIMEOUT", 10 * Second, parseDuration),
        GetDurationEnv(env, "WRITE_TIMEOUT", 10 * Second, parseDuration),
        GetDurationEnv(env, "IDLE_TIMEOUT", 120 * Second, parseDuration)),
      DatabaseConfig(
        GetEnv(env, "MONGODB_URI", "mongodb://localhost:27017"),
        GetEnv(env, "DATABASE_NAME", "ecommerce"),
        GetDurationEnv(env, "DB_TIMEOUT", 10 * Second, parseDuration),
        GetUint64Env(env, "DB_MAX_POOL_SIZE", 100)),
      JwtConfig(
        GetEnv(env, "JWT_SECRET", "default-secret-key"),
        GetDurationEnv(env, "JWT_EXPIRATION", 24 * Hour, parseDuration)))
  }

  /** The configuration of an environment that sets none of the variables. */
  const Defaults: AppConfig := AppConfig(
    ServerConfig("8080", 10_000_000_000, 10_000_000_000, 120_000_000_000),
    DatabaseConfig("mongodb://localhost:27017", "ecommerce", 10_000_000_000, 100),
    JwtConfig("default-secret-key", 86_400_000_000_000))

  /** Unset and empty variables both give the defaults, whatever the duration parser. */
  lemma LoadDefaults(env: Env, parseDuration: string -> Option<Duration>)
    requires forall k :: k in Keys ==> Getenv(env, k) == ""
    ensures Load(env, parseDuration) == Defaults
  {
    assert Getenv(env, Keys[0]) == "" && Getenv(env, Keys[1]) == "" && Getenv(env, Keys[2]) == "";
    assert Getenv(env, Keys[3]) == "" && Getenv(env, Keys[4]) == "" && Getenv(env, Keys[5]) == "";
    assert Getenv(env, Keys[6]) == "" && Getenv(env, Keys[7]) == "" && Getenv(env, Keys[8]) == "";
    assert Getenv(env, Keys[9]) == "";
  }

  /** `Load` depends on the ten variables only: environments that agree on them give one configuration. */
  lemma LoadDependsOnlyOnKeys(env1: Env, env2: Env, parseDuration: string -> Option<Duration>)
    requires forall k :: k in Keys ==> Getenv(env1, k) == Getenv(env2, k)
    ensures Load(env1, parseDuration) == Load(env2, parseDuration)
  {
    assert Getenv(env1, Keys[0]) == Getenv(env2, Keys[0]);
    assert Getenv(env1, Keys[1]) == Getenv(env2, Keys[1]);
    assert Getenv(env1, Keys[2]) == Getenv(env2, Keys[2]);
    assert Getenv(env1, Keys[3]) == Getenv(env2, Keys[3]);
    assert Getenv(env1, Keys[4]) == Getenv(env2, Keys[4]);
    assert Getenv(env1, Keys[5]) == Getenv(env2, Keys[5]);
    assert Getenv(env1, Keys[6]) == Getenv(env2, Keys[6]);
    assert Getenv(env1, Keys[7]) == Getenv(env2, Keys[7]);
    assert Getenv(env1, Keys[8]) == Getenv(env2, Keys[8]);
    assert Getenv(env1, Keys[9]) == Getenv(env2, Keys[9]);
  }

  /** A set, non-empty variable wins over the default; an unparsable duration does not. */
  lemma EnvOverrides(env: Env, key: string, default: string, dDefault: Duration,
                     parseDuration: string -> Option<Duration>)
    ensures Getenv(env, key) != "" ==> GetEnv(env, key, default) == Getenv(env, key)
    ensures Getenv(env, key) == "" ==> GetEnv(env, key, default) == default
    ensures parseDuration(Getenv(env, key)).None? ==> GetDurationEnv(env, key, dDefault, parseDuration) == dDefault
    ensures Getenv(env, key) != "" && parseDuration(Getenv(env, key)).Some? ==>
      GetDurationEnv(env, key, dDefault, parseDuration) == parseDuration(Getenv(env, key)).value
  {
  }
}
