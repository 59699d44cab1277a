/**
 * The start-up stages of the `api` command and the fail-fast rule that runs
 * them: each stage is attempted only after every earlier one has succeeded,
 * and the first failure is a fatal exit.
 */
module Pipeline {

  datatype Stage =
    | SelectForkVersion
    | CheckBeaconSync
    | ConnectRedis
    | WrapDatastore
    | DecodeSecretKey
    | ParseSecretKey
    | BuildOptions
    | CreateService
    | StartServer

  /** The process either ends in a fatal exit at some stage or keeps serving. */
  datatype Outcome = Serving | FatalAt(stage: Stage)

  /** The stages attempted, in order, and where the run ended. */
  datatype Bootstrap = Bootstrap(attempted: seq<Stage>, outcome: Outcome)

  /** The stages in the order `Run` goes through them. */
  const StartupOrder: seq<Stage> := [
    SelectForkVersion, CheckBeaconSync, ConnectRedis, WrapDatastore,
    DecodeSecretKey, ParseSecretKey, BuildOptions, CreateService, StartServer ]

  predicate Distinct(stages: seq<Stage>) {
    forall i, j :: 0 <= i < j < |stages| ==> stages[i] != stages[j]
  }

  /** The position of a stage in the start-up order. */
  function Rank(s: Stage): (n: nat)
    ensures n < |StartupOrder| && StartupOrder[n] == s
  {
    match s
    case SelectForkVersion => 0
    case CheckBeaconSync => 1
    case ConnectRedis => 2
    case WrapDatastore => 3
    case DecodeSecretKey => 4
    case ParseSecretKey => 5
    case BuildOptions => 6
    case CreateService => 7
    case StartServer => 8
  }

  /** Each stage occurs in the start-up order at its rank, and only there. */
  lemma RankIsPosition(i: nat)
    requires i < |StartupOrder|
    ensures Rank(StartupOrder[i]) == i
  {
    assert i == 0 || i == 1 || i == 2 || i == 3 || i == 4 || i == 5 || i == 6 || i == 7 || i == 8;
  }

  lemma StartupOrderIsDistinct()
    ensures Distinct(StartupOrder)
  {
    forall i, j | 0 <= i < j < |StartupOrder| ensures StartupOrder[i] != StartupOrder[j] {
      RankIsPosition(i);
      RankIsPosition(j);
    }
  }

  /**
   * Attempts `stages` in order, where `ok[i]` says whether `stages[i]`
   * succeeds once reached, and stops at the first one that does not.
   */
  function FailFast(stages: seq<Stage>, ok: seq<bool>): (r: Bootstrap)
    requires |ok| == |stages|
    ensures |r.attempted| <= |stages| && r.attempted == stages[..|r.attempted|]
    ensures r.outcome.Serving? <==> forall i :: 0 <= i < |stages| ==> ok[i]
    ensures r.outcome.Serving? ==> r.attempted == stages
    ensures r.outcome.FatalAt? ==>
      && |r.attempted| > 0
      && r.outcome.stage == stages[|r.attempted| - 1]
      && !ok[|r.attempted| - 1]
      && forall i :: 0 <= i < |r.attempted| - 1 ==> ok[i]
  {
    if stages == [] then Bootstrap([], Serving)
    else if !ok[0] then Bootstrap([stages[0]], FatalAt(stages[0]))
    else
      var rest := FailFast(stages[1..], ok[1..]);
      assert forall i :: 1 <= i < |stages| ==> ok[i] == ok[1..][i - 1];
      Bootstrap([stages[0]] + rest.attempted, rest.outcome)
  }

  /** The run ends exactly at the first failing stage, having attempted it and everything before it. */
  lemma {:induction false} StopsAtFirstFailure(stages: seq<Stage>, ok: seq<bool>, k: nat)
    requires |ok| == |stages|
    requires k < |stages|
    requires forall i :: 0 <= i < k ==> ok[i]
    requires !ok[k]
    ensures FailFast(stages, ok) == Bootstrap(stages[..k + 1], FatalAt(stages[k]))
  {
    if k > 0 {
      StopsAtFirstFailure(stages[1..], ok[1..], k - 1);
      assert [stages[0]] + stages[1..][..k] == stages[..k + 1];
    }
  }

  /** When every stage succeeds, all of them are attempted, in order, and the process keeps serving. */
  lemma {:induction false} AllSucceedMeansServing(stages: seq<Stage>, ok: seq<bool>)
    requires |ok| == |stages|
    requires forall i :: 0 <= i < |stages| ==> ok[i]
    ensures FailFast(stages, ok) == Bootstrap(stages, Serving)
  {
    if stages != [] {
      AllSucceedMeansServing(stages[1..], ok[1..]);
      assert [stages[0]] + stages[1..] == stages;
    }
  }

  /** In a sequence of distinct stages, a stage lies in a prefix exactly when its position does. */
  lemma InPrefixIffBefore(stages: seq<Stage>, n: nat, k: nat)
    requires Distinct(stages)
    requires n <= |stages| && k < |stages|
    ensures stages[k] in stages[..n] <==> k < n
  {
    if k < n {
      assert stages[..n][k] == stages[k];
    }
  }

  /** With distinct stages, the stages attempted are those before the end of the run. */
  lemma AttemptedIffWithinRun(stages: seq<Stage>, ok: seq<bool>, k: nat)
    requires |ok| == |stages|
    requires Distinct(stages)
    requires k < |stages|
    ensures stages[k] in FailFast(stages, ok).attempted <==> k < |FailFast(stages, ok).attempted|
  {
    InPrefixIffBefore(stages, |FailFast(stages, ok).attempted|, k);
  }

  /** With distinct stages, a stage after a failing one is never attempted. */
  lemma FailureBlocksLaterStages(stages: seq<Stage>, ok: seq<bool>, j: nat, k: nat)
    requires |ok| == |stages|
    requires Distinct(stages)
    requires j < k < |stages|
    requires !ok[j]
    ensures stages[k] !in FailFast(stages, ok).attempted
  {
    var n := |FailFast(stages, ok).attempted|;
    AttemptedIffWithinRun(stages, ok, k);
    assert !(forall i :: 0 <= i < |stages| ==> ok[i]);
    assert n <= j + 1;
  }

  /** The run reaches the stage after `stages[k]` exactly when it reaches `stages[k]` and that stage succeeds. */
  lemma ReachesNextIffSucceeds(stages: seq<Stage>, ok: seq<bool>, k: nat)
    requires |ok| == |stages|
    requires k + 1 < |stages|
    ensures k + 1 < |FailFast(stages, ok).attempted| <==> k < |FailFast(stages, ok).attempted| && ok[k]
  {
  }

  /** With distinct stages, a stage is attempted exactly when the one before it was attempted and succeeded. */
  lemma AttemptedIffPredecessorSucceeded(stages: seq<Stage>, ok: seq<bool>, k: nat)
    requires |ok| == |stages|
    requires Distinct(stages)
    requires 0 < k < |stages|
    ensures stages[k] in FailFast(stages, ok).attempted <==>
            stages[k - 1] in FailFast(stages, ok).attempted && ok[k - 1]
  {
    AttemptedIffWithinRun(stages, ok, k);
    AttemptedIffWithinRun(stages, ok, k - 1);
    ReachesNextIffSucceeds(stages, ok, k - 1);
  }

  /** With distinct stages, an attempted stage was preceded only by stages that succeeded. */
  lemma AttemptedAfterSuccesses(stages: seq<Stage>, ok: seq<bool>, k: nat)
    requires |ok| == |stages|
    requires Distinct(stages)
    requires k < |stages|
    requires stages[k] in FailFast(stages, ok).attempted
    ensures forall i :: 0 <= i < k ==> ok[i]
  {
    AttemptedIffWithinRun(stages, ok, k);
  }

  /** A stage attempted in the start-up order was reached past every stage ranked before it, all of which succeeded. */
  lemma AttemptedInStartupOrderAfterSuccesses(ok: seq<bool>, s: Stage)
    requires |ok| == |StartupOrder|
    requires s in FailFast(StartupOrder, ok).attempted
    ensures Rank(s) < |FailFast(StartupOrder, ok).attempted|
    ensures forall i :: 0 <= i < Rank(s) ==> ok[i]
  {
    var r := FailFast(StartupOrder, ok);
    var m :| 0 <= m < |r.attempted| && r.attempted[m] == s;
    RankIsPosition(m);
  }
}
