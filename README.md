# Start-up of the mev-boost relay API command

This project models the `api` command of the boost relay (`cmd/api.go`): the
`Run` closure that decides whether the relay starts and on which network. It
covers two pieces of decision logic and the value they hand to the relay
service.

- **Genesis fork version selection.** A non-empty `--genesis-fork-version` wins.
  Its default comes from the GENESIS_FORK_VERSION environment variable.
  Otherwise the first set flag among `--mainnet`, `--kiln`, `--ropsten` and
  `--sepolia` decides. With none of them the run is fatal.
- **The fail-fast start-up sequence.** The stages run in a fixed order: fork
  version, beacon sync check, Redis connection, datastore wrapping, secret-key
  hex decoding, BLS key parsing, building `RelayAPIOpts`, constructing the
  service, and serving. The first failure is a fatal exit and nothing after it
  is attempted. `StartServer` blocks while the relay serves. Any return from it,
  nil or an error, is also a fatal exit.

Modules, one per component:

- `Wrappers` (wrappers.dfy): `Option`, where None stands for a Go error return.
- `GoTime` (go_time.dfy): int64 with two's-complement wrap-around, and
  `time.Duration(ms) * time.Millisecond`.
- `NetworkIdentity` (network_identity.dfy): the if/else chain `Resolve`. It is
  checked against an independent rule: the first selected candidate in a
  declared precedence list.
- `ApiConfig` (api_config.dfy): the flag variables as an immutable `Flags`
  record, and the defaults of `init`, including those that come from the
  environment.
- `Pipeline` (pipeline.dfy): the stages and a generic fail-fast runner
  `FailFast`, with its laws.
- `Startup` (startup.dfy): the outside calls as oracles in `Dependencies`, the
  specification `Boot` (fail-fast over the start-up order, with a per-stage
  success predicate), and `Run`. `Run` is an imperative method that follows the
  source statement by statement. It appends each stage to a trace before that
  stage is attempted, and it is proved equal to `Boot`.

`Run` returns `Serving` for the state in which `StartServer` is still blocking.
It returns `FatalAt(stage)` for every `log.Fatal` path.

Three points of the code that are easy to misread, and that the model follows:

- Having more than one network source active is not an error in `Run`. It
  takes the first source in precedence order (custom value, then mainnet, kiln,
  ropsten, sepolia). Cobra's mutual exclusion rejects only flags given
  explicitly on the command line. So a GENESIS_FORK_VERSION value in the
  environment silently overrides `--mainnet`
  (`EnvForkVersionOverridesMainnetFlag`).
- Datastore wrapping and building the options cannot fail. They appear in the
  trace as stages that always succeed.
- The wait duration is an int64 product that wraps on overflow. The model
  writes out the wrap. It proves the exact value for every
  `|ms| <= 9_223_372_036_854`, and proves that one millisecond more gives a
  negative duration.

## Model

| member | source | states |
|---|---|---|
| `NetworkIdentity.Resolve` | cmd/api.go:77-90 | the result is absent (the fatal "please specify a genesis fork version") exactly when the custom value is empty and no named flag is set; otherwise it is one of the five candidate values |
| `NetworkIdentity.FirstSelectedIndex` | cmd/api.go:78-87 | the position it returns is the first selected candidate: every earlier candidate is unselected, and the position is in range exactly when some candidate is selected |
| `NetworkIdentity.FirstSelected` | cmd/api.go:78-89 | the value is absent exactly when no candidate is selected; otherwise it is the value of a selected candidate with no selected candidate before it, that is, of the first selected one |
| `NetworkIdentity.ResolveIsFirstSelected` | cmd/api.go:77-90 | for all inputs, the if/else chain equals "the first selected source in the order custom, mainnet, kiln, ropsten, sepolia gives the version" |
| `NetworkIdentity.CustomOverridesNamedNetworks` | cmd/api.go:78-79 | a non-empty custom value is the result, whatever named flags are set |
| `NetworkIdentity.EmptyCustomDefersToNamedOrder` | cmd/api.go:78-87 | an empty custom value counts as not selected: the result is the first set flag among mainnet, kiln, ropsten, sepolia |
| `NetworkIdentity.ResolvedNamedVersionIdentifiesFlag` | cmd/api.go:80-87 | with distinct network constants and an empty custom value, the result is a network's constant exactly when that flag is set and no flag before it is set |
| `NetworkIdentity.SingleNamedFlagSelectsItsNetwork` | cmd/api.go:80-87 | when exactly one named flag is set, which is what flag-level mutual exclusion aims at, the result is that network's constant |
| `GoTime.Wrap64` | cmd/api.go:126 | the int64 result is congruent to its argument modulo 2^64, and equals it when the argument fits in an int64 |
| `GoTime.MillisToDuration` | cmd/api.go:126 | the duration is ms × 1,000,000 ns modulo 2^64, and is exactly ms × 1,000,000 whenever abs(ms) <= 9,223,372,036,854 |
| `GoTime.MillisToDurationWrapsPastBound` | cmd/api.go:126 | the bound is tight: 9,223,372,036,855 ms wraps to a negative duration, and its negation wraps to a positive one |
| `ApiConfig.GetEnv` | cmd/api.go:20-23 | `common.GetEnv`: the variable's value when it is set, even when empty, and the fallback when it is unset |
| `ApiConfig.Getenv` | cmd/api.go:22-24 | `os.Getenv`: the same lookup with "" as the fallback, so an unset and an empty variable read alike |
| `ApiConfig.DefaultFlags` | cmd/api.go:19-60 | the defaults: listen address `localhost:9062`, wait 500 ms, pprof off, empty secret key, no named network flag; Redis `localhost:6379` and log level `info` when their variables are unset, else their values; beacon URI and custom fork version from the environment or empty; JSON logging exactly when LOG_JSON is non-empty |
| `ApiConfig.EnvForkVersionOverridesMainnetFlag` | cmd/api.go:56-61 | a non-empty GENESIS_FORK_VERSION, which becomes the default of `--genesis-fork-version`, beats an explicit `--mainnet` |
| `Pipeline.FailFast` | cmd/api.go:95-138 | the attempted stages are a prefix of the order. The run keeps serving exactly when every stage succeeds, and then all were attempted. A fatal run ends at its last attempted stage, which failed, and every stage before it succeeded |
| `Pipeline.StopsAtFirstFailure` | cmd/api.go:96-134 | when stage k is the first failure, the run attempts exactly the stages up to and including k and ends fatally at k |
| `Pipeline.AllSucceedMeansServing` | cmd/api.go:77-138 | when every stage succeeds, all of them are attempted in order and the process keeps serving |
| `Pipeline.FailureBlocksLaterStages` | cmd/api.go:96-117 | with distinct stages, no stage after a failing one is ever attempted |
| `Pipeline.AttemptedIffPredecessorSucceeded` | cmd/api.go:95-138 | with distinct stages, a stage is attempted exactly when the one before it was attempted and succeeded |
| `Pipeline.AttemptedAfterSuccesses` | cmd/api.go:95-138 | with distinct stages, every stage before an attempted stage succeeded |
| `Startup.NewProdBeaconClient` | cmd/api.go:95 | building the beacon client cannot fail, and the client is bound to the configured endpoint |
| `Startup.NewProdProposerDatastore` | cmd/api.go:107 | wrapping the Redis connection cannot fail, and the datastore is over exactly that connection |
| `Startup.KeyOf` | cmd/api.go:110-117 | a key exists exactly when hex decoding succeeds and the decoded bytes parse as a BLS key, and it is the parsed key |
| `Startup.OptionsOf` | cmd/api.go:119-128 | the options exist exactly when the fork version resolved, Redis connected and the key parsed; they then hold the resolved fork version, the listen address, the pprof switch, a beacon client for the configured endpoint, a datastore over the Redis connection and the parsed key, and the wait time is ms × 10^6 ns whenever that fits in an int64 |
| `Startup.ServiceOf` | cmd/api.go:131-134 | a service exists only if the options do; when they exist, the result is exactly what `NewRelayAPI` returns for them, so a successful call gives a service and an error gives none |
| `Startup.StageOk` | cmd/api.go:88-138 | each stage's success condition, as an if-and-only-if in terms of the outside calls: the fork-version stage succeeds exactly when some network source is given; the sync stage exactly when `SyncStatus` returns no error; the Redis stage exactly when `NewRedisCache` returns a handle; decoding exactly when `hexutil.Decode` succeeds; parsing exactly when decoding and `SecretKeyFromBytes` both succeed; the service stage exactly when the options exist and `NewRelayAPI` succeeds on them; serving exactly when, in addition, `StartServer` blocks; wrapping the datastore and building the options always succeed |
| `Startup.Boot` | cmd/api.go:77-138 | the start-up specification: a non-empty prefix of the start-up order is attempted; a serving run has attempted all nine stages; the relay keeps serving exactly when every stage succeeds; a fatal run ends at its last attempted stage, which failed, after every earlier stage succeeded |
| `Startup.BootStopsAt` | cmd/api.go:88-133 | start-up ends fatally at stage k, having attempted the stages up to k, when every earlier stage succeeded and stage k did not |
| `Startup.NoNetworkIsFatalBeforeAnyDependency` | cmd/api.go:88-95 | with no network selected, the only stage attempted is the fork-version stage, and it is fatal: no beacon client, Redis, key or server stage is reached |
| `Startup.SyncFailureStopsBeforeRedis` | cmd/api.go:96-102 | a beacon sync error is fatal after the first two stages, and Redis is never contacted |
| `Startup.RedisFailureStopsBeforeKey` | cmd/api.go:102-110 | a Redis connection error is fatal at that stage, and the key is never decoded |
| `Startup.DecodeFailureStopsBeforeParse` | cmd/api.go:110-114 | a hex decoding error is fatal at that stage, after the beacon and Redis stages succeeded, and no BLS key is parsed |
| `Startup.ParseFailureStopsBeforeService` | cmd/api.go:114-131 | an invalid BLS key is fatal at that stage, and no options are built and no service is constructed |
| `Startup.ServiceFailureStopsBeforeServe` | cmd/api.go:131-138 | a `NewRelayAPI` error is fatal at that stage, and the server is never started |
| `Startup.ServerReturnIsFatal` | cmd/api.go:138 | when `StartServer` returns, nil or an error, every stage has been attempted and the process ends fatally at the serve stage |
| `Startup.AllSucceedStartsServing` | cmd/api.go:77-138 | when every oracle succeeds and the server blocks, every stage is attempted once, in order, and the relay is serving |
| `Startup.AttemptedInStartupOrder` | cmd/api.go:77-138 | every run attempts a non-empty prefix of the start-up order, with no stage twice |
| `Startup.ServingOnlyWhileServerBlocks` | cmd/api.go:96-138 | there is no normal exit: a run is serving only if `SyncStatus` returned no error, a service was constructed and `StartServer` has not returned; with `AllSucceedStartsServing` this is an if-and-only-if |
| `Startup.OptionsExistWhenReached` | cmd/api.go:102-128 | reaching the options stage implies the options can be built: the fork version, the Redis connection and the key all exist |
| `Startup.OptionsCarryConfiguration` | cmd/api.go:119-128 | the options handed to the service carry, unchanged, the resolved fork version, the listen address, the pprof switch, the beacon client for the configured endpoint, the datastore over the Redis connection and the parsed key; the wait time is ms × 10^6 ns whenever that fits in an int64 |
| `Startup.DefaultsWithoutForkVersionAreFatal` | cmd/api.go:88-89 | with every flag at its default and GENESIS_FORK_VERSION unset or empty, start-up is fatal at the fork-version stage before any dependency |
| `Startup.Run` | cmd/api.go:69-139 | the imperative `Run` attempts exactly the stages of the fail-fast specification, ends as it does, and returns the options value exactly when it reached the options stage |

## Left out

- Cobra flag parsing and `MarkFlagsMutuallyExclusive` (cmd/api.go:61) are library behaviour. `Flags` is the value after parsing. Mutual exclusion appears only as the precondition of `SingleNamedFlagSelectsItsNetwork`, and it does not constrain an environment-supplied custom value.
- Environment lookups (cmd/api.go:20-24) are inputs: `Environment` holds each variable or None when it is unset. The code of `common.GetEnv` is not part of this model. `ApiConfig.GetEnv` assumes the `os.LookupEnv` form: the variable's value when it is set, and the fallback otherwise.
- Logging setup, the logger in `RelayAPIOpts`, the version banner and every log message (cmd/api.go:72-74, 91, 94, 106, 137) are side effects. They are not modelled, and the `json` and `loglevel` flags are carried only as values.
- `SyncStatus`, `NewRedisCache`, `hexutil.Decode`, `bls.SecretKeyFromBytes`, `api.NewRelayAPI` and `StartServer` are outside code and network I/O. They are success/failure oracles in `Dependencies`. Their validity rules and internals are not modelled, and neither is the sync status value, which `Run` discards: the oracle `syncStatusSucceeds` says only that `SyncStatus` returned no error, so a node that reports it is still syncing but returns no error passes.
- The hex values of `common.GenesisForkVersion*` are not part of this model. They are opaque strings in `KnownForkVersions`, assumed distinct only where a lemma says so.
- A blocking dependency (a hung beacon node or Redis) cannot be told apart from a slow one. Time and timeouts are not modelled.
- Process exit status: every fatal path is one `FatalAt(stage)` outcome. The exit code is not modelled.
