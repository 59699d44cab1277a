/**
 * The command-line configuration of the `api` command: the package-level
 * variables that the flags are bound to, and their defaults, some of which
 * come from the environment.
 */
module ApiConfig {
  import opened Wrappers
  import opened GoTime
  import opened NetworkIdentity

  /** The values of the flag variables once the command line has been parsed. */
  datatype Flags = Flags(
    listenAddr: string,
    beaconNodeUri: string,
    redisUri: string,
    logJson: bool,
    logLevel: string,
    network: NetworkFlags,
    apiPprof: bool,
    secretKey: string,
    getHeaderWaitTimeMs: int64)

  /** The environment variables read for defaults; None is an unset variable. */
  datatype Environment = Environment(
    beaconUri: Option<string>,
    redisUri: Option<string>,
    logJson: Option<string>,
    logLevel: Option<string>,
    genesisForkVersion: Option<string>)

  const DefaultListenAddr: string := "localhost:9062"
  const DefaultRedisUri: string := "localhost:6379"
  const DefaultLogLevel: string := "info"
  const DefaultGetHeaderWaitMs: int64 := 500

  /** `common.GetEnv`: the variable's value when it is set (even when empty), the fallback otherwise. */
  function GetEnv(variable: Option<string>, fallback: string): (value: string)
    ensures variable.Some? ==> value == variable.value
    ensures variable.None? ==> value == fallback
  {
    variable.GetOr(fallback)
  }

  /** `os.Getenv`: the variable's value, or "" when it is unset. */
  function Getenv(variable: Option<string>): (value: string)
    ensures value == GetEnv(variable, "")
  {
    variable.GetOr("")
  }

  /** The flag values when no flag is given on the command line. */
  function DefaultFlags(env: Environment): (f: Flags)
    ensures f.listenAddr == "localhost:9062"
    ensures f.beaconNodeUri == env.beaconUri.GetOr("")
    ensures env.redisUri.None? ==> f.redisUri == "localhost:6379"
    ensures env.redisUri.Some? ==> f.redisUri == env.redisUri.value
    ensures f.logJson <==> env.logJson.Some? && env.logJson.value != ""
    ensures env.logLevel.None? ==> f.logLevel == "info"
    ensures env.logLevel.Some? ==> f.logLevel == env.logLevel.value
    ensures !f.apiPprof
    ensures f.getHeaderWaitTimeMs == 500
    ensures f.secretKey == ""
    ensures !f.network.mainnet && !f.network.kiln && !f.network.ropsten && !f.network.sepolia
    ensures f.network.custom == env.genesisForkVersion.GetOr("")
  {
    Flags(
      listenAddr := DefaultListenAddr,
      beaconNodeUri := GetEnv(env.beaconUri, ""),
      redisUri := GetEnv(env.redisUri, DefaultRedisUri),
      logJson := Getenv(env.logJson) != "",
      logLevel := GetEnv(env.logLevel, DefaultLogLevel),
      network := NetworkFlags(Getenv(env.genesisForkVersion), false, false, false, false),
      apiPprof := false,
      secretKey := "",
      getHeaderWaitTimeMs := DefaultGetHeaderWaitMs)
  }

  /**
   * GENESIS_FORK_VERSION becomes the default of `--genesis-fork-version`, so
   * when it is set it wins even over an explicit `--mainnet`: the flag-level
   * mutual exclusion only sees flags given on the command line.
   */
  lemma EnvForkVersionOverridesMainnetFlag(env: Environment, known: KnownForkVersions)
    requires env.genesisForkVersion.Some? && env.genesisForkVersion.value != ""
    ensures Resolve(DefaultFlags(env).network.(mainnet := true), known) == Some(env.genesisForkVersion.value)
  {
  }
}
