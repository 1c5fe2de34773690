/**
 * The derived parts of the tspend tool's configuration (config.go): network
 * selection, the per-network default node address, the two predicates the
 * transaction builder asks of the configuration, the address/amount count
 * check, and the parsing of the `--debuglevel` option.
 */
module TSpendConfig {
  import opened Wrappers
  import opened Networks
  import opened Strings

  datatype ConfigError = ConflictingNetworks | MismatchedPayoutCounts(addresses: nat, amounts: nat)

  /** The fields of `config` the core reads; `activeNet` and `chainParams` are filled in after parsing. */
  class Config {
    var mainNet: bool
    var testNet: bool
    var simNet: bool
    var dcrdConnect: string
    var feeRate: int
    var privKey: string
    var privKeyFile: string
    var opReturnData: string
    var deterministicOpReturn: bool
    var publish: bool
    var expiry: int
    var currentHeight: int
    var addresses: seq<string>
    var amounts: seq<int>
    var csv: string
    var spew: bool
    var out: string
    var activeNet: Network
    var chainParams: Option<Network>

    /** `needsDcrd`: a node is needed to learn the best height or to publish. */
    predicate NeedsDcrd()
      reads this
    {
      (expiry == 0 && currentHeight == 0) || publish
    }

    /** `privKeyFromStdin` */
    predicate PrivKeyFromStdin()
      reads this
    {
      privKey == "-"
    }

    /**
     * `fillActiveNet`: counts the set flags and leaves the last one (in
     * main, test, sim order) in `activeNet`; with more than one flag it fails
     * and leaves `chainParams` as it was, otherwise `chainParams` becomes the
     * selected network's.
     */
    method FillActiveNet() returns (err: Option<ConfigError>)
      modifies this`activeNet, this`chainParams
      ensures activeNet == LastSelected(mainNet, testNet, simNet)
      ensures err.Some? <==> FlagCount(mainNet, testNet, simNet) > 1
      ensures err.Some? ==> err.value == ConflictingNetworks && chainParams == old(chainParams)
      ensures err.None? ==> chainParams == Some(activeNet)
    {
      var numNets := 0;
      activeNet := MainNet;
      if mainNet {
        numNets := numNets + 1;
        activeNet := MainNet;
      }
      if testNet {
        numNets := numNets + 1;
        activeNet := TestNet;
      }
      if simNet {
        numNets := numNets + 1;
        activeNet := SimNet;
      }
      if numNets > 1 {
        return Some(ConflictingNetworks);
      }
      chainParams := Some(activeNet);
      return None;
    }

    /**
     * The checks `loadConfig` makes once the options are parsed: the network
     * first, then that the numbers of addresses and amounts are equal.
     */
    method ResolveDerived() returns (err: Option<ConfigError>)
      modifies this`activeNet, this`chainParams
      ensures FlagCount(mainNet, testNet, simNet) > 1 ==> err == Some(ConflictingNetworks)
      ensures FlagCount(mainNet, testNet, simNet) <= 1 ==>
        (err.None? <==> |addresses| == |amounts|) &&
        chainParams == Some(LastSelected(mainNet, testNet, simNet))
      ensures err.Some? && err.value.MismatchedPayoutCounts? ==>
        err.value.addresses == |addresses| && err.value.amounts == |amounts|
    {
      err := FillActiveNet();
      if err.Some? {
        return;
      }
      if |addresses| != |amounts| {
        err := Some(MismatchedPayoutCounts(|addresses|, |amounts|));
      }
    }
  }

  // ------------------------------------------------------------ debug levels

  datatype DebugLevelError =
    | InvalidLevel(level: string)
    | InvalidPair(pair: string)
    | UnknownSubsystem(subsystem: string)

  /**
   * The level of every subsystem logger; log.go, which holds `setLogLevel`
   * and `setLogLevels`, is not part of this model, so the loggers are this
   * map from subsystem identifier to level name.
   */
  class Loggers {
    var levels: map<string, string>

    constructor (subsystems: set<string>, level: string)
      ensures levels.Keys == subsystems
    {
      levels := map s | s in subsystems :: level;
    }

    /**
     * `parseAndSetDebugLevels`: a string with neither ',' nor '=' sets every
     * subsystem when it is a valid level; otherwise each ','-separated pair
     * `subsystem=level` is checked and applied in turn, stopping at the first
     * bad one with the earlier pairs already applied.
     */
    method ParseAndSetDebugLevels(debugLevel: string, validLevel: string -> bool) returns (err: Option<DebugLevelError>)
      modifies this
      ensures (levels, err) == ApplyDebugLevels(old(levels), debugLevel, validLevel)
    {
      if !Contains(debugLevel, ',') && !Contains(debugLevel, '=') {
        if !validLevel(debugLevel) {
          return Some(InvalidLevel(debugLevel));
        }
        levels := SetAll(levels, debugLevel);
        return None;
      }
      var pairs := Split(debugLevel, ',');
      ghost var start := levels;
      for i := 0 to |pairs|
        invariant ApplyPairs(start, pairs[..i], validLevel) == (levels, None)
      {
        var pair := pairs[i];
        ghost var step := ApplyPair(levels, pair, validLevel);
        ApplyPairsStep(start, pairs, i, validLevel);
        if step.Err? {
          FirstBadPairAborts(start, pairs, i, validLevel);
        }
        if !Contains(pair, '=') {
          return Some(InvalidPair(pair));
        }
        var fields := Split(pair, '=');
        var subsystem, level := fields[0], fields[1];
        if subsystem !in levels {
          return Some(UnknownSubsystem(subsystem));
        }
        if !validLevel(level) {
          return Some(InvalidLevel(level));
        }
        levels := levels[subsystem := level];
      }
      assert pairs[..|pairs|] == pairs;
      return None;
    }
  }

  /** `setLogLevels`: every subsystem gets the level. */
  function SetAll(levels: map<string, string>, level: string): (r: map<string, string>)
    ensures r.Keys == levels.Keys && forall s :: s in r ==> r[s] == level
  {
    map s | s in levels :: level
  }

  /** The effect of one `subsystem=level` pair, or the error it raises. */
  function ApplyPair(levels: map<string, string>, pair: string, validLevel: string -> bool): Result<map<string, string>, DebugLevelError>
  {
    if !Contains(pair, '=') then Err(InvalidPair(pair))
    else
      var fields := Split(pair, '=');
      if fields[0] !in levels then Err(UnknownSubsystem(fields[0]))
      else if !validLevel(fields[1]) then Err(InvalidLevel(fields[1]))
      else Ok(levels[fields[0] := fields[1]])
  }

  /** The pairs applied in order; the first error stops the walk and keeps what was applied. */
  function ApplyPairs(levels: map<string, string>, pairs: seq<string>, validLevel: string -> bool): (map<string, string>, Option<DebugLevelError>)
  {
    if pairs == [] then (levels, None)
    else
      var (before, err) := ApplyPairs(levels, pairs[..|pairs| - 1], validLevel);
      if err.Some? then (before, err)
      else match ApplyPair(before, pairs[|pairs| - 1], validLevel)
        case Ok(after) => (after, None)
        case Err(e) => (before, Some(e))
  }

  /** One more pair: the walk over the first i+1 pairs extends the walk over the first i. */
  lemma ApplyPairsStep(levels: map<string, string>, pairs: seq<string>, i: nat, validLevel: string -> bool)
    requires i < |pairs|
    ensures ApplyPairs(levels, pairs[..i + 1], validLevel)
         == (var (before, err) := ApplyPairs(levels, pairs[..i], validLevel);
             if err.Some? then (before, err)
             else match ApplyPair(before, pairs[i], validLevel)
               case Ok(after) => (after, None)
               case Err(e) => (before, Some(e)))
  {
    assert pairs[..i + 1][..i] == pairs[..i];
    assert pairs[..i + 1][i] == pairs[i];
  }

  function ApplyDebugLevels(levels: map<string, string>, debugLevel: string, validLevel: string -> bool): (map<string, string>, Option<DebugLevelError>)
  {
    if !Contains(debugLevel, ',') && !Contains(debugLevel, '=') then
      if validLevel(debugLevel) then (SetAll(levels, debugLevel), None)
      else (levels, Some(InvalidLevel(debugLevel)))
    else ApplyPairs(levels, Split(debugLevel, ','), validLevel)
  }

  /** Only levels change: the set of known subsystems is the same after any walk. */
  lemma {:induction false} ApplyPairsKeepsSubsystems(levels: map<string, string>, pairs: seq<string>, validLevel: string -> bool)
    ensures ApplyPairs(levels, pairs, validLevel).0.Keys == levels.Keys
  {
    if pairs != [] {
      ApplyPairsKeepsSubsystems(levels, pairs[..|pairs| - 1], validLevel);
    }
  }

  /**
   * When the pairs before index k are all good and pair k is bad, the walk
   * reports pair k's error and keeps exactly the effect of the earlier pairs.
   */
  lemma {:induction false} FirstBadPairAborts(levels: map<string, string>, pairs: seq<string>, k: nat, validLevel: string -> bool)
    requires k < |pairs|
    requires ApplyPairs(levels, pairs[..k], validLevel).1.None?
    requires ApplyPair(ApplyPairs(levels, pairs[..k], validLevel).0, pairs[k], validLevel).Err?
    ensures ApplyPairs(levels, pairs, validLevel)
         == (ApplyPairs(levels, pairs[..k], validLevel).0,
             Some(ApplyPair(ApplyPairs(levels, pairs[..k], validLevel).0, pairs[k], validLevel).error))
  {
    if |pairs| == k + 1 {
      assert pairs[..|pairs| - 1] == pairs[..k];
    } else {
      assert pairs[..|pairs| - 1][..k] == pairs[..k];
      assert pairs[..|pairs| - 1][k] == pairs[k];
      FirstBadPairAborts(levels, pairs[..|pairs| - 1], k, validLevel);
    }
  }

  /** A well-formed `subsystem=level` list sets each named subsystem; a later pair for the same subsystem wins. */
  lemma {:induction false} GoodPairsSetLevels(levels: map<string, string>, pairs: seq<string>, validLevel: string -> bool, j: nat)
    requires ApplyPairs(levels, pairs, validLevel).1.None?
    requires j < |pairs|
    requires forall k :: j < k < |pairs| ==> Split(pairs[k], '=')[0] != Split(pairs[j], '=')[0]
    ensures '=' in pairs[j]
    ensures Split(pairs[j], '=')[0] in ApplyPairs(levels, pairs, validLevel).0
    ensures ApplyPairs(levels, pairs, validLevel).0[Split(pairs[j], '=')[0]] == Split(pairs[j], '=')[1]
  {
    var prefix := pairs[..|pairs| - 1];
    if j < |pairs| - 1 {
      assert ApplyPairs(levels, prefix, validLevel).1.None?;
      forall k | j < k < |prefix| ensures Split(prefix[k], '=')[0] != Split(prefix[j], '=')[0] {
        assert prefix[k] == pairs[k];
      }
      GoodPairsSetLevels(levels, prefix, validLevel, j);
      assert prefix[j] == pairs[j];
    }
  }
}
