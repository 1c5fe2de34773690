/**
 * The `expiryfor` command (expiryfor/main.go): from a block height given on
 * the command line, the expiry a treasury spend created on top of it would
 * get, with the same "too close to the next TVI" advance as the tspend tool.
 */
module ExpiryFor {
  import opened Wrappers
  import opened GoInt
  import opened Encoding
  import opened Networks
  import opened Window
  import TSpend

  /** The ways the command stops before printing an expiry. */
  datatype Exit =
    | Usage                      // fewer than two arguments: usage text, exit status 1
    | IndexOutOfRange            // a network flag without a height after it: the index panics
    | ParseFailed(err: NumError) // the height is not a base-10 int32: the error, exit status 1

  /** An expiry and its voting window, computed for one height. */
  datatype Placement = Placement(height: int, expiry: int, start: int, end: int)

  /** What the command prints once it has a height. */
  datatype Report = Report(
    network: Network,
    height: int,
    isTVI: bool,
    blocksToTVI: int,
    tooCloseThresh: int,
    first: Placement,
    advanced: Option<Placement>
  )

  /** The network the first argument selects: mainnet unless it is `--testnet` or `--simnet`. */
  function ChosenNetwork(args: seq<string>): Network
    requires |args| >= 2
  {
    if args[1] == "--testnet" then TestNet else if args[1] == "--simnet" then SimNet else MainNet
  }

  /** The argument holding the height: the second after a network flag, the first otherwise. */
  function HeightArgument(args: seq<string>): Option<string>
    requires |args| >= 2
  {
    if ChosenNetwork(args) == MainNet then Some(args[1])
    else if |args| >= 3 then Some(args[2])
    else None
  }

  /** The expiry printed last: the advanced one when there is one. */
  function FinalExpiry(r: Report): int
  {
    if r.advanced.Some? then r.advanced.value.expiry else r.first.expiry
  }

  /**
   * `main`: `os.Args` is `args`, `chaincfg`'s parameters are `params`, and
   * `IsTreasuryVoteInterval`, `CalcTSpendExpiry` and `CalcTSpendWindow` are
   * `isTVI` and `rules`.
   */
  method Run(args: seq<string>, params: Network -> ChainParams, isTVI: (int, nat) -> bool, rules: ExpiryRules)
    returns (r: Result<Report, Exit>)
    requires forall n :: params(n).tvi > 0
    ensures |args| < 2 <==> r == Err(Usage)
    ensures |args| >= 2 ==> (r == Err(IndexOutOfRange) <==> HeightArgument(args).None?)
    ensures |args| >= 2 && HeightArgument(args).Some? && ParseInt32(HeightArgument(args).value).Err? ==>
      r == Err(ParseFailed(ParseInt32(HeightArgument(args).value).error))
    ensures r.Ok? ==>
      var p := params(r.value.network);
      var h := r.value.height;
      && |args| >= 2 && r.value.network == ChosenNetwork(args)
      && HeightArgument(args).Some? && ParseInt32(HeightArgument(args).value) == Ok(h - 1)
      && r.value.isTVI == isTVI(WrapU64(h), p.tvi)
      && r.value.blocksToTVI == BlocksToTVI(h, p.tvi)
      && r.value.tooCloseThresh == TooCloseThreshold(p.tvi)
      && r.value.first.height == h
      && r.value.first.expiry == rules.calcExpiry(h, p.tvi, p.tviMultiplier)
      && (r.value.first.start, r.value.first.end) == rules.calcWindow(r.value.first.expiry, p.tvi, p.tviMultiplier)
      && (r.value.advanced.Some? <==> TooClose(h, p.tvi))
      && (r.value.advanced.Some? ==> r.value.advanced.value.height == PlacementHeight(h, p.tvi))
      && (r.value.advanced.Some? ==>
            (r.value.advanced.value.start, r.value.advanced.value.end)
              == rules.calcWindow(r.value.advanced.value.expiry, p.tvi, p.tviMultiplier))
      && FinalExpiry(r.value) == rules.calcExpiry(PlacementHeight(h, p.tvi), p.tvi, p.tviMultiplier)
      && FinalExpiry(r.value) == TSpend.ExpiryFor(0, h - 1, Some(h - 1), p, rules).value
  {
    if |args| < 2 {
      return Err(Usage);
    }

    var network := MainNet;
    var heightStr := args[1];
    if args[1] == "--testnet" {
      network := TestNet;
      if |args| < 3 {
        return Err(IndexOutOfRange);
      }
      heightStr := args[2];
    } else if args[1] == "--simnet" {
      network := SimNet;
      if |args| < 3 {
        return Err(IndexOutOfRange);
      }
      heightStr := args[2];
    }
    var chain := params(network);

    var parsed := ParseInt32(heightStr);
    if parsed.Err? {
      return Err(ParseFailed(parsed.error));
    }
    var height := parsed.value;
    height := height + 1;
    var tvi := chain.tvi;
    var mul := chain.tviMultiplier;

    var blocksToTVI := tvi - Rem(height, tvi);
    var tooCloseThresh := tvi / 4;
    var isTooClose := blocksToTVI < tooCloseThresh;

    var isTreasuryVoteInterval := isTVI(WrapU64(height), tvi);
    var expiry := rules.calcExpiry(height, tvi, mul);
    var (start, end) := rules.calcWindow(expiry, tvi, mul);
    var first := Placement(height, expiry, start, end);
    var advanced := None;
    if isTooClose {
      height := height + blocksToTVI;
      expiry := rules.calcExpiry(height, tvi, mul);
      var (start', end') := rules.calcWindow(expiry, tvi, mul);
      advanced := Some(Placement(height, expiry, start', end'));
    }
    r := Ok(Report(network, first.height, isTreasuryVoteInterval, blocksToTVI, tooCloseThresh, first, advanced));
  }
}
