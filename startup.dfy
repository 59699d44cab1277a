/**
 * The `api` command's `Run`: resolve the network, check the beacon node,
 * connect to Redis, load the signing key, assemble the relay's options,
 * construct the relay service and serve. Every outside call that can fail is
 * an oracle in `Dependencies`; every failure is a fatal exit.
 */
module Startup {
  import opened Wrappers
  import opened GoTime
  import opened NetworkIdentity
  import opened ApiConfig
  import opened Pipeline

  /** `beaconclient.NewProdBeaconClient(log, uri)`: a client for the given endpoint; building it cannot fail. */
  datatype BeaconClient = BeaconClient(endpoint: string)

  /** A connection handle returned by `datastore.NewRedisCache`. */
  datatype RedisCache = RedisCache(connection: nat)

  /** `datastore.NewProdProposerDatastore(redis)`: the proposer datastore over a Redis connection. */
  datatype ProposerDatastore = ProposerDatastore(redis: RedisCache)

  type Bytes = seq<bv8>

  /** A BLS secret key accepted by `bls.SecretKeyFromBytes`. */
  datatype SecretKey = SecretKey(scalar: nat)

  /** A relay service built by `api.NewRelayAPI`. */
  datatype RelayService = RelayService(instance: nat)

  /** `api.RelayAPIOpts`, without the logger. */
  datatype RelayApiOpts = RelayApiOpts(
    listenAddr: string,
    beaconClient: BeaconClient,
    datastore: ProposerDatastore,
    genesisForkVersionHex: string,
    pprofApi: bool,
    getHeaderWaitTime: Duration,
    secretKey: SecretKey)

  /** What `StartServer` does: it blocks while serving, or returns nil or an error. */
  datatype ServeResult = ServesForever | ReturnedNil | ReturnedError(message: string)

  /**
   * The collaborators `Run` calls, as oracles: the named networks' fork
   * versions, whether `SyncStatus` returns without error, `NewRedisCache`,
   * `hexutil.Decode`, `bls.SecretKeyFromBytes`, `api.NewRelayAPI` and
   * `StartServer`. A None result is an error return.
   */
  datatype Dependencies = Dependencies(
    forkVersions: KnownForkVersions,
    syncStatusSucceeds: BeaconClient -> bool,
    newRedisCache: string -> Option<RedisCache>,
    hexDecode: string -> Option<Bytes>,
    secretKeyFromBytes: Bytes -> Option<SecretKey>,
    newRelayApi: RelayApiOpts -> Option<RelayService>,
    startServer: RelayService -> ServeResult)

  /** `beaconclient.NewProdBeaconClient`: a client bound to the configured endpoint. */
  function NewProdBeaconClient(uri: string): (c: BeaconClient)
    ensures c.endpoint == uri
  {
    BeaconClient(uri)
  }

  /** `datastore.NewProdProposerDatastore`: a datastore over the given Redis connection. */
  function NewProdProposerDatastore(redis: RedisCache): (ds: ProposerDatastore)
    ensures ds.redis == redis
  {
    ProposerDatastore(redis)
  }

  // What each stage produces, computed from the flags and the oracles.

  /** The secret key: the hex string decoded, then parsed as a BLS key. */
  function KeyOf(f: Flags, d: Dependencies): (sk: Option<SecretKey>)
    ensures sk.Some? <==> d.hexDecode(f.secretKey).Some? && d.secretKeyFromBytes(d.hexDecode(f.secretKey).value).Some?
    ensures sk.Some? ==> Some(sk.value) == d.secretKeyFromBytes(d.hexDecode(f.secretKey).value)
  {
    match d.hexDecode(f.secretKey)
    case None => None
    case Some(bytes) => d.secretKeyFromBytes(bytes)
  }

  /** The options handed to the relay service, when every stage that feeds them succeeds. */
  function OptionsOf(f: Flags, d: Dependencies): (opts: Option<RelayApiOpts>)
    ensures opts.Some? <==>
      Resolve(f.network, d.forkVersions).Some? && d.newRedisCache(f.redisUri).Some? && KeyOf(f, d).Some?
    ensures opts.Some? ==>
      && opts.value.genesisForkVersionHex == Resolve(f.network, d.forkVersions).value
      && opts.value.listenAddr == f.listenAddr
      && opts.value.pprofApi == f.apiPprof
      && opts.value.beaconClient.endpoint == f.beaconNodeUri
      && opts.value.datastore.redis == d.newRedisCache(f.redisUri).value
      && Some(opts.value.secretKey) == KeyOf(f, d)
      && (-MaxExactMillis <= f.getHeaderWaitTimeMs as int <= MaxExactMillis ==>
            opts.value.getHeaderWaitTime as int == f.getHeaderWaitTimeMs as int * Millisecond)
  {
    match (Resolve(f.network, d.forkVersions), d.newRedisCache(f.redisUri), KeyOf(f, d))
    case (Some(hex), Some(redis), Some(sk)) =>
      Some(RelayApiOpts(
        listenAddr := f.listenAddr,
        beaconClient := NewProdBeaconClient(f.beaconNodeUri),
        datastore := NewProdProposerDatastore(redis),
        genesisForkVersionHex := hex,
        pprofApi := f.apiPprof,
        getHeaderWaitTime := MillisToDuration(f.getHeaderWaitTimeMs),
        secretKey := sk))
    case _ => None
  }

  /** The relay service, when the options exist and `NewRelayAPI` accepts them. */
  function ServiceOf(f: Flags, d: Dependencies): (srv: Option<RelayService>)
    ensures OptionsOf(f, d).None? ==> srv.None?
    ensures OptionsOf(f, d).Some? ==> srv == d.newRelayApi(OptionsOf(f, d).value)
  {
    match OptionsOf(f, d)
    case None => None
    case Some(opts) => d.newRelayApi(opts)
  }

  /**
   * Whether a stage succeeds, given that the stages before it did. Wrapping
   * the datastore and building the options cannot fail; serving "succeeds"
   * only while `StartServer` has not returned.
   */
  function StageOk(f: Flags, d: Dependencies, s: Stage): (ok: bool)
    ensures s == WrapDatastore || s == BuildOptions ==> ok
    ensures s == SelectForkVersion ==> (ok <==> AnySelected(f.network))
    ensures s == CheckBeaconSync ==> (ok <==> d.syncStatusSucceeds(NewProdBeaconClient(f.beaconNodeUri)))
    ensures s == ConnectRedis ==> (ok <==> d.newRedisCache(f.redisUri).Some?)
    ensures s == DecodeSecretKey ==> (ok <==> d.hexDecode(f.secretKey).Some?)
    ensures s == ParseSecretKey ==>
      (ok <==> d.hexDecode(f.secretKey).Some? && d.secretKeyFromBytes(d.hexDecode(f.secretKey).value).Some?)
    ensures s == CreateService ==>
      (ok <==> OptionsOf(f, d).Some? && d.newRelayApi(OptionsOf(f, d).value).Some?)
    ensures s == StartServer ==>
      (ok <==> && OptionsOf(f, d).Some? && d.newRelayApi(OptionsOf(f, d).value).Some?
               && d.startServer(d.newRelayApi(OptionsOf(f, d).value).value) == ServesForever)
  {
    match s
    case SelectForkVersion => Resolve(f.network, d.forkVersions).Some?
    case CheckBeaconSync => d.syncStatusSucceeds(NewProdBeaconClient(f.beaconNodeUri))
    case ConnectRedis => d.newRedisCache(f.redisUri).Some?
    case WrapDatastore => true
    case DecodeSecretKey => d.hexDecode(f.secretKey).Some?
    case ParseSecretKey => KeyOf(f, d).Some?
    case BuildOptions => true
    case CreateService => ServiceOf(f, d).Some?
    case StartServer => ServiceOf(f, d).Some? && d.startServer(ServiceOf(f, d).value) == ServesForever
  }

  /** Whether each stage of the start-up order succeeds once reached. */
  function StageResults(f: Flags, d: Dependencies): (oks: seq<bool>)
    ensures |oks| == |StartupOrder|
    ensures forall i :: 0 <= i < |oks| ==> (oks[i] <==> StageOk(f, d, StartupOrder[i]))
  {
    seq(|StartupOrder|, i requires 0 <= i < |StartupOrder| => StageOk(f, d, StartupOrder[i]))
  }

  /** The start-up the source performs: the stages in order, stopping at the first failure. */
  function Boot(f: Flags, d: Dependencies): (b: Bootstrap)
    ensures 0 < |b.attempted| <= |StartupOrder| && b.attempted == StartupOrder[..|b.attempted|]
    ensures b.outcome == Serving ==> b.attempted == StartupOrder
    ensures b.outcome == Serving <==> forall i :: 0 <= i < |StartupOrder| ==> StageOk(f, d, StartupOrder[i])
    ensures b.outcome.FatalAt? ==>
      && b.outcome.stage == b.attempted[|b.attempted| - 1]
      && !StageOk(f, d, b.outcome.stage)
      && forall i :: 0 <= i < |b.attempted| - 1 ==> StageOk(f, d, b.attempted[i])
  {
    FailFast(StartupOrder, StageResults(f, d))
  }

  /** `Boot` ends fatally at stage k when every earlier stage succeeds and stage k does not. */
  lemma BootStopsAt(f: Flags, d: Dependencies, k: nat)
    requires k < |StartupOrder|
    requires forall i :: 0 <= i < k ==> StageOk(f, d, StartupOrder[i])
    requires !StageOk(f, d, StartupOrder[k])
    ensures Boot(f, d) == Bootstrap(StartupOrder[..k + 1], FatalAt(StartupOrder[k]))
  {
    StopsAtFirstFailure(StartupOrder, StageResults(f, d), k);
  }

  /** With no network selected the run ends at once: no beacon, Redis, key or server stage is attempted. */
  lemma NoNetworkIsFatalBeforeAnyDependency(f: Flags, d: Dependencies)
    requires !AnySelected(f.network)
    ensures Boot(f, d) == Bootstrap([SelectForkVersion], FatalAt(SelectForkVersion))
  {
    BootStopsAt(f, d, 0);
    assert StartupOrder[..1] == [SelectForkVersion];
  }

  /** A beacon sync error is fatal and Redis is never contacted. */
  lemma SyncFailureStopsBeforeRedis(f: Flags, d: Dependencies)
    requires AnySelected(f.network)
    requires !d.syncStatusSucceeds(NewProdBeaconClient(f.beaconNodeUri))
    ensures Boot(f, d) == Bootstrap([SelectForkVersion, CheckBeaconSync], FatalAt(CheckBeaconSync))
  {
    forall i | 0 <= i < 1 ensures StageOk(f, d, StartupOrder[i]) {
      assert i == 0;
    }
    BootStopsAt(f, d, 1);
    assert StartupOrder[..2] == [SelectForkVersion, CheckBeaconSync];
  }

  /** A Redis connection error is fatal and the secret key is never decoded. */
  lemma RedisFailureStopsBeforeKey(f: Flags, d: Dependencies)
    requires AnySelected(f.network)
    requires d.syncStatusSucceeds(NewProdBeaconClient(f.beaconNodeUri))
    requires d.newRedisCache(f.redisUri).None?
    ensures Boot(f, d) == Bootstrap([SelectForkVersion, CheckBeaconSync, ConnectRedis], FatalAt(ConnectRedis))
  {
    forall i | 0 <= i < 2 ensures StageOk(f, d, StartupOrder[i]) {
      assert i == 0 || i == 1;
    }
    BootStopsAt(f, d, 2);
    assert StartupOrder[..3] == [SelectForkVersion, CheckBeaconSync, ConnectRedis];
  }

  /** A hex decoding error is fatal and no BLS key is parsed. */
  lemma DecodeFailureStopsBeforeParse(f: Flags, d: Dependencies)
    requires AnySelected(f.network)
    requires d.syncStatusSucceeds(NewProdBeaconClient(f.beaconNodeUri))
    requires d.newRedisCache(f.redisUri).Some?
    requires d.hexDecode(f.secretKey).None?
    ensures Boot(f, d) == Bootstrap(
      [SelectForkVersion, CheckBeaconSync, ConnectRedis, WrapDatastore, DecodeSecretKey], FatalAt(DecodeSecretKey))
  {
    forall i | 0 <= i < 4 ensures StageOk(f, d, StartupOrder[i]) {
      assert i == 0 || i == 1 || i == 2 || i == 3;
    }
    BootStopsAt(f, d, 4);
    assert StartupOrder[..5] == [SelectForkVersion, CheckBeaconSync, ConnectRedis, WrapDatastore, DecodeSecretKey];
  }

  /** Bytes that are not a valid BLS key are fatal and no service is constructed. */
  lemma ParseFailureStopsBeforeService(f: Flags, d: Dependencies)
    requires AnySelected(f.network)
    requires d.syncStatusSucceeds(NewProdBeaconClient(f.beaconNodeUri))
    requires d.newRedisCache(f.redisUri).Some?
    requires d.hexDecode(f.secretKey).Some?
    requires d.secretKeyFromBytes(d.hexDecode(f.secretKey).value).None?
    ensures Boot(f, d) == Bootstrap(
      [SelectForkVersion, CheckBeaconSync, ConnectRedis, WrapDatastore, DecodeSecretKey, ParseSecretKey],
      FatalAt(ParseSecretKey))
  {
    forall i | 0 <= i < 5 ensures StageOk(f, d, StartupOrder[i]) {
      assert i == 0 || i == 1 || i == 2 || i == 3 || i == 4;
    }
    BootStopsAt(f, d, 5);
    assert StartupOrder[..6] ==
      [SelectForkVersion, CheckBeaconSync, ConnectRedis, WrapDatastore, DecodeSecretKey, ParseSecretKey];
  }

  /** Every stage before service construction succeeds exactly when the options can be built and the node is synced. */
  lemma OptionsStagesSucceed(f: Flags, d: Dependencies)
    requires d.syncStatusSucceeds(NewProdBeaconClient(f.beaconNodeUri))
    requires OptionsOf(f, d).Some?
    ensures forall i :: 0 <= i < 7 ==> StageOk(f, d, StartupOrder[i])
  {
    forall i | 0 <= i < 7 ensures StageOk(f, d, StartupOrder[i]) {
      assert i == 0 || i == 1 || i == 2 || i == 3 || i == 4 || i == 5 || i == 6;
    }
  }

  /** A construction error from `NewRelayAPI` is fatal and the server is never started. */
  lemma ServiceFailureStopsBeforeServe(f: Flags, d: Dependencies)
    requires d.syncStatusSucceeds(NewProdBeaconClient(f.beaconNodeUri))
    requires OptionsOf(f, d).Some?
    requires d.newRelayApi(OptionsOf(f, d).value).None?
    ensures Boot(f, d) == Bootstrap(StartupOrder[..8], FatalAt(CreateService))
    ensures StartServer !in Boot(f, d).attempted
  {
    OptionsStagesSucceed(f, d);
    BootStopsAt(f, d, 7);
  }

  /** Whatever `StartServer` returns, nil or an error, the process ends in a fatal exit after every stage. */
  lemma ServerReturnIsFatal(f: Flags, d: Dependencies)
    requires d.syncStatusSucceeds(NewProdBeaconClient(f.beaconNodeUri))
    requires ServiceOf(f, d).Some?
    requires d.startServer(ServiceOf(f, d).value) != ServesForever
    ensures Boot(f, d) == Bootstrap(StartupOrder, FatalAt(StartServer))
  {
    OptionsStagesSucceed(f, d);
    BootStopsAt(f, d, 8);
    assert StartupOrder[..9] == StartupOrder;
  }

  /** When every oracle succeeds, each stage is attempted once, in order, and the relay is serving. */
  lemma AllSucceedStartsServing(f: Flags, d: Dependencies)
    requires d.syncStatusSucceeds(NewProdBeaconClient(f.beaconNodeUri))
    requires ServiceOf(f, d).Some?
    requires d.startServer(ServiceOf(f, d).value) == ServesForever
    ensures Boot(f, d) == Bootstrap(StartupOrder, Serving)
  {
    OptionsStagesSucceed(f, d);
    assert forall i :: 0 <= i < |StartupOrder| ==> StageOk(f, d, StartupOrder[i]) by {
      forall i | 0 <= i < |StartupOrder| ensures StageOk(f, d, StartupOrder[i]) {
        if i < 7 {
        } else if i == 7 {
        } else {
          assert i == 8;
        }
      }
    }
    AllSucceedMeansServing(StartupOrder, StageResults(f, d));
  }

  /** The stages a run attempts are a non-empty prefix of the start-up order, each attempted once. */
  lemma AttemptedInStartupOrder(f: Flags, d: Dependencies)
    ensures 0 < |Boot(f, d).attempted| <= |StartupOrder|
    ensures Boot(f, d).attempted == StartupOrder[..|Boot(f, d).attempted|]
    ensures Distinct(Boot(f, d).attempted)
  {
    StartupOrderIsDistinct();
  }

  /**
   * There is no normal exit: the process is still running only while
   * `StartServer` blocks, after `SyncStatus` succeeded and a service was built.
   * With `AllSucceedStartsServing` this is an if-and-only-if.
   */
  lemma ServingOnlyWhileServerBlocks(f: Flags, d: Dependencies)
    requires Boot(f, d).outcome == Serving
    ensures d.syncStatusSucceeds(NewProdBeaconClient(f.beaconNodeUri))
    ensures ServiceOf(f, d).Some? && d.startServer(ServiceOf(f, d).value) == ServesForever
  {
    var oks := StageResults(f, d);
    assert oks[1] && oks[8];
    assert oks[1] == StageOk(f, d, StartupOrder[1]);
    assert oks[8] == StageOk(f, d, StartupOrder[8]);
  }

  /** Reaching the options stage means the fork-version, Redis and key-parsing stages succeeded. */
  lemma ReachedOptionsStage(f: Flags, d: Dependencies)
    requires BuildOptions in Boot(f, d).attempted
    ensures StageOk(f, d, SelectForkVersion) && StageOk(f, d, ConnectRedis) && StageOk(f, d, ParseSecretKey)
  {
    var oks := StageResults(f, d);
    AttemptedInStartupOrderAfterSuccesses(oks, BuildOptions);
    assert oks[0] && oks[2] && oks[5];
  }

  /** Reaching the options stage means the options value exists. */
  lemma OptionsExistWhenReached(f: Flags, d: Dependencies)
    requires BuildOptions in Boot(f, d).attempted
    ensures OptionsOf(f, d).Some?
  {
    ReachedOptionsStage(f, d);
  }

  /**
   * Once the options are built they hold, unchanged, the resolved fork
   * version, the listen address, the pprof switch, the beacon client for the
   * configured endpoint, the datastore over the Redis connection and the
   * parsed key; the wait time is the millisecond flag in nanoseconds whenever
   * that product fits in an int64.
   */
  lemma OptionsCarryConfiguration(f: Flags, d: Dependencies)
    requires BuildOptions in Boot(f, d).attempted
    ensures OptionsOf(f, d).Some?
    ensures Resolve(f.network, d.forkVersions).Some?
    ensures OptionsOf(f, d).value.genesisForkVersionHex == Resolve(f.network, d.forkVersions).value
    ensures OptionsOf(f, d).value.listenAddr == f.listenAddr
    ensures OptionsOf(f, d).value.pprofApi == f.apiPprof
    ensures OptionsOf(f, d).value.beaconClient == BeaconClient(f.beaconNodeUri)
    ensures d.newRedisCache(f.redisUri).Some?
    ensures OptionsOf(f, d).value.datastore == ProposerDatastore(d.newRedisCache(f.redisUri).value)
    ensures KeyOf(f, d) == Some(OptionsOf(f, d).value.secretKey)
    ensures -MaxExactMillis <= f.getHeaderWaitTimeMs as int <= MaxExactMillis ==>
              OptionsOf(f, d).value.getHeaderWaitTime as int == f.getHeaderWaitTimeMs as int * Millisecond
  {
    OptionsExistWhenReached(f, d);
  }

  /** With every flag at its default and GENESIS_FORK_VERSION unset or empty, the relay refuses to start. */
  lemma DefaultsWithoutForkVersionAreFatal(env: Environment, d: Dependencies)
    requires env.genesisForkVersion.GetOr("") == ""
    ensures Boot(DefaultFlags(env), d) == Bootstrap([SelectForkVersion], FatalAt(SelectForkVersion))
  {
    NoNetworkIsFatalBeforeAnyDependency(DefaultFlags(env), d);
  }

  /**
   * The `Run` closure of the `api` command. It returns the stages it
   * attempted, how it ended, and the options it built (None when it stopped
   * before building them). `Serving` is the state in which `StartServer`
   * blocks; when it returns the process exits fatally.
   */
  method Run(flags: Flags, deps: Dependencies) returns (attempted: seq<Stage>, outcome: Outcome, opts: Option<RelayApiOpts>)
    ensures Bootstrap(attempted, outcome) == Boot(flags, deps)
    ensures opts == if BuildOptions in attempted then OptionsOf(flags, deps) else None
  {
    opts := None;

    // Stage 1: the fork version, or the fatal exit when no network is given
    attempted := [SelectForkVersion];
    assert attempted == StartupOrder[..1];
    var forkVersion := Resolve(flags.network, deps.forkVersions);
    if forkVersion.None? {
      outcome := FatalAt(SelectForkVersion);
      NoNetworkIsFatalBeforeAnyDependency(flags, deps);
      return;
    }
    var genesisForkVersionHex := forkVersion.value;

    // Stage 2: a `SyncStatus` error is fatal
    attempted := attempted + [CheckBeaconSync];
    assert attempted == StartupOrder[..2];
    var beaconClient := NewProdBeaconClient(flags.beaconNodeUri);
    if !deps.syncStatusSucceeds(beaconClient) {
      outcome := FatalAt(CheckBeaconSync);
      SyncFailureStopsBeforeRedis(flags, deps);
      return;
    }

    // Stages 3 and 4: the Redis handle, then the datastore over it
    attempted := attempted + [ConnectRedis];
    assert attempted == StartupOrder[..3];
    var redis := deps.newRedisCache(flags.redisUri);
    if redis.None? {
      outcome := FatalAt(ConnectRedis);
      RedisFailureStopsBeforeKey(flags, deps);
      return;
    }
    attempted := attempted + [WrapDatastore];
    assert attempted == StartupOrder[..4];
    var ds := NewProdProposerDatastore(redis.value);

    // Stages 5 and 6: hex bytes, then the BLS key
    attempted := attempted + [DecodeSecretKey];
    assert attempted == StartupOrder[..5];
    var envSkBytes := deps.hexDecode(flags.secretKey);
    if envSkBytes.None? {
      outcome := FatalAt(DecodeSecretKey);
      DecodeFailureStopsBeforeParse(flags, deps);
      return;
    }
    attempted := attempted + [ParseSecretKey];
    assert attempted == StartupOrder[..6];
    var sk := deps.secretKeyFromBytes(envSkBytes.value);
    if sk.None? {
      outcome := FatalAt(ParseSecretKey);
      ParseFailureStopsBeforeService(flags, deps);
      return;
    }

    // Stage 7: the options, which cannot fail
    attempted := attempted + [BuildOptions];
    assert attempted == StartupOrder[..7];
    opts := Some(RelayApiOpts(
      listenAddr := flags.listenAddr,
      beaconClient := beaconClient,
      datastore := ds,
      genesisForkVersionHex := genesisForkVersionHex,
      pprofApi := flags.apiPprof,
      getHeaderWaitTime := MillisToDuration(flags.getHeaderWaitTimeMs),
      secretKey := sk.value));

    // Stage 8: the service built from the options
    attempted := attempted + [CreateService];
    assert attempted == StartupOrder[..8];
    var srv := deps.newRelayApi(opts.value);
    if srv.None? {
      outcome := FatalAt(CreateService);
      ServiceFailureStopsBeforeServe(flags, deps);
      return;
    }

    // Stage 9: serving; any return is fatal
    attempted := attempted + [StartServer];
    assert attempted == StartupOrder[..9];
    var served := deps.startServer(srv.value);
    if served == ServesForever {
      outcome := Serving;
      AllSucceedStartsServing(flags, deps);
    } else {
      outcome := FatalAt(StartServer);
      ServerReturnIsFatal(flags, deps);
    }
  }
}
