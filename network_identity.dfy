/**
 * Selection of the genesis fork version the relay validates signatures
 * against: a custom hex value, or the constant of one of four named networks.
 */
module NetworkIdentity {
  import opened Wrappers

  /** The genesis fork versions of the named networks, kept opaque: their hex values are not modelled. */
  datatype KnownForkVersions = KnownForkVersions(mainnet: string, kiln: string, ropsten: string, sepolia: string)
  {
    /** The four networks have four different fork versions. */
    predicate Distinct() {
      mainnet != kiln && mainnet != ropsten && mainnet != sepolia &&
      kiln != ropsten && kiln != sepolia && ropsten != sepolia
    }
  }

  /**
   * The five network-identity inputs of the `api` command: the value of
   * `--genesis-fork-version` (which defaults to GENESIS_FORK_VERSION) and the
   * flags `--mainnet`, `--kiln`, `--ropsten` and `--sepolia`.
   */
  datatype NetworkFlags = NetworkFlags(custom: string, mainnet: bool, kiln: bool, ropsten: bool, sepolia: bool)

  /** Some input names a network: a non-empty custom value or a set flag. */
  predicate AnySelected(n: NetworkFlags) {
    n.custom != "" || n.mainnet || n.kiln || n.ropsten || n.sepolia
  }

  /**
   * The fork version `Run` settles on; None is the fatal "please specify a
   * genesis fork version". An empty custom value counts as not given.
   */
  function Resolve(n: NetworkFlags, known: KnownForkVersions): (r: Option<string>)
    ensures r.None? <==> !AnySelected(n)
    ensures r.Some? ==> r.value in {n.custom, known.mainnet, known.kiln, known.ropsten, known.sepolia}
  {
    if n.custom != "" then Some(n.custom)
    else if n.mainnet then Some(known.mainnet)
    else if n.kiln then Some(known.kiln)
    else if n.ropsten then Some(known.ropsten)
    else if n.sepolia then Some(known.sepolia)
    else None
  }

  // An independent reading of the rule: the sources form a list in a fixed
  // order of precedence, and the first selected one decides.

  /** A source of the fork version: whether it is selected and the value it gives. */
  datatype Candidate = Candidate(selected: bool, hex: string)

  /** The sources in declared precedence: custom value, then mainnet, kiln, ropsten, sepolia. */
  function Candidates(n: NetworkFlags, known: KnownForkVersions): (cs: seq<Candidate>)
    ensures |cs| == 5 && cs[0].hex == n.custom
    ensures cs[0].selected <==> n.custom != ""
  {
    [ Candidate(n.custom != "", n.custom),
      Candidate(n.mainnet, known.mainnet),
      Candidate(n.kiln, known.kiln),
      Candidate(n.ropsten, known.ropsten),
      Candidate(n.sepolia, known.sepolia) ]
  }

  /** The position of the first selected candidate, or |cs| when none is selected. */
  function FirstSelectedIndex(cs: seq<Candidate>): (k: nat)
    ensures k <= |cs|
    ensures forall j :: 0 <= j < k ==> !cs[j].selected
    ensures k < |cs| ==> cs[k].selected
  {
    if cs == [] then 0
    else if cs[0].selected then 0
    else 1 + FirstSelectedIndex(cs[1..])
  }

  /** The value of the first selected candidate, if any. */
  function FirstSelected(cs: seq<Candidate>): (r: Option<string>)
    ensures r.None? <==> forall j :: 0 <= j < |cs| ==> !cs[j].selected
    ensures r.Some? ==> exists j :: 0 <= j < |cs| && cs[j].selected && cs[j].hex == r.value
                                     && forall i :: 0 <= i < j ==> !cs[i].selected
  {
    var k := FirstSelectedIndex(cs);
    if k < |cs| then Some(cs[k].hex) else None
  }

  /** The if/else chain is exactly "the first selected source in declared precedence wins". */
  lemma ResolveIsFirstSelected(n: NetworkFlags, known: KnownForkVersions)
    ensures Resolve(n, known) == FirstSelected(Candidates(n, known))
  {
    var cs := Candidates(n, known);
    var k := FirstSelectedIndex(cs);
    assert k < 5 ==> cs[k].selected;
    if n.custom != "" {
      assert cs[0].selected;
      assert k == 0;
    } else if n.mainnet {
      assert !cs[0].selected && cs[1].selected;
      assert k == 1;
    } else if n.kiln {
      assert !cs[0].selected && !cs[1].selected && cs[2].selected;
      assert k == 2;
    } else if n.ropsten {
      assert !cs[0].selected && !cs[1].selected && !cs[2].selected && cs[3].selected;
      assert k == 3;
    } else if n.sepolia {
      assert !cs[0].selected && !cs[1].selected && !cs[2].selected && !cs[3].selected && cs[4].selected;
      assert k == 4;
    } else {
      assert k == 5;
    }
  }

  /** A non-empty custom value wins over every named-network flag, whichever of them are set. */
  lemma CustomOverridesNamedNetworks(n: NetworkFlags, known: KnownForkVersions)
    requires n.custom != ""
    ensures Resolve(n, known) == Some(n.custom)
  {
  }

  /**
   * With an empty custom value the custom source is passed over and the named
   * flags decide, in the order mainnet, kiln, ropsten, sepolia.
   */
  lemma EmptyCustomDefersToNamedOrder(n: NetworkFlags, known: KnownForkVersions)
    requires n.custom == ""
    ensures Resolve(n, known) == FirstSelected(Candidates(n, known)[1..])
  {
    var cs := Candidates(n, known);
    ResolveIsFirstSelected(n, known);
    assert !cs[0].selected;
    assert cs[1..] == [cs[1], cs[2], cs[3], cs[4]];
    var k := FirstSelectedIndex(cs[1..]);
    assert FirstSelectedIndex(cs) == 1 + k;
  }

  /**
   * When the custom value is empty, a resolved named-network version tells
   * which flag decided: that flag is set and every flag before it is not.
   */
  lemma ResolvedNamedVersionIdentifiesFlag(n: NetworkFlags, known: KnownForkVersions)
    requires known.Distinct()
    requires n.custom == ""
    ensures Resolve(n, known) == Some(known.mainnet) <==> n.mainnet
    ensures Resolve(n, known) == Some(known.kiln) <==> !n.mainnet && n.kiln
    ensures Resolve(n, known) == Some(known.ropsten) <==> !n.mainnet && !n.kiln && n.ropsten
    ensures Resolve(n, known) == Some(known.sepolia) <==> !n.mainnet && !n.kiln && !n.ropsten && n.sepolia
  {
  }

  /** Exclusive selection of one named network (what flag-level mutual exclusion aims at) yields its constant. */
  lemma SingleNamedFlagSelectsItsNetwork(n: NetworkFlags, known: KnownForkVersions)
    requires n.custom == ""
    requires (if n.mainnet then 1 else 0) + (if n.kiln then 1 else 0) + (if n.ropsten then 1 else 0) + (if n.sepolia then 1 else 0) == 1
    ensures n.mainnet ==> Resolve(n, known) == Some(known.mainnet)
    ensures n.kiln ==> Resolve(n, known) == Some(known.kiln)
    ensures n.ropsten ==> Resolve(n, known) == Some(known.ropsten)
    ensures n.sepolia ==> Resolve(n, known) == Some(known.sepolia)
  {
  }
}
