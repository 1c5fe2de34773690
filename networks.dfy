/**
 * The three Decred networks the tools can target, the constants of their chain
 * parameters the core reads, and the per-network defaults the three
 * configuration files share.
 */
module Networks {
  import Encoding

  /** `chainNetwork`; also stands for the `*chaincfg.Params` that `chainNetwork.chainParams` returns. */
  datatype Network = MainNet | TestNet | SimNet

  /** `chainNetwork.defaultDcrdRPCConnect` (config.go, repeated in voteprogress/config.go). */
  function DefaultDcrdRPCConnect(n: Network): string
  {
    match n
    case MainNet => "localhost:9109"
    case TestNet => "localhost:19109"
    case SimNet => "localhost:19556"
  }

  /** `Params.Name` of the parameters selected for a network. */
  function ParamsName(n: Network): string
  {
    match n
    case MainNet => "mainnet"
    case TestNet => "testnet3"
    case SimNet => "simnet"
  }

  /** The consensus constants of `chaincfg.Params` the core reads. */
  datatype ChainParams = ChainParams(
    name: string,
    tvi: nat,                       // TreasuryVoteInterval
    tviMultiplier: nat,             // TreasuryVoteIntervalMultiplier
    expenditureWindow: nat,         // TreasuryExpenditureWindow
    votesPerBlock: nat,             // VotesPerBlock()
    requiredMul: nat,               // TreasuryVoteRequiredMultiplier
    requiredDiv: nat,               // TreasuryVoteRequiredDivisor
    quorumMul: nat,                 // TreasuryVoteQuorumMultiplier
    quorumDiv: nat,                 // TreasuryVoteQuorumDivisor
    subsidyReductionInterval: nat,  // SubsidyReductionInterval
    coinbaseMaturity: nat,          // CoinbaseMaturity
    targetTimePerBlock: nat,        // TargetTimePerBlock, in nanoseconds
    piKeys: seq<seq<Encoding.byte>> // PiKeys
  )

  function Count(b: bool): nat { if b then 1 else 0 }

  /** How many of the three network flags are set (`numNets` in `fillActiveNet`). */
  function FlagCount(mainNet: bool, testNet: bool, simNet: bool): nat
  {
    Count(mainNet) + Count(testNet) + Count(simNet)
  }

  /**
   * The network `fillActiveNet` leaves in `activeNet`: the default, mainnet,
   * overwritten by each set flag in the order main, test, sim.
   */
  function LastSelected(mainNet: bool, testNet: bool, simNet: bool): Network
  {
    if simNet then SimNet else if testNet then TestNet else MainNet
  }

  /** With no flag, or only the mainnet flag, mainnet is selected; a single flag selects its network. */
  lemma SingleFlagSelectsItsNetwork(mainNet: bool, testNet: bool, simNet: bool)
    requires FlagCount(mainNet, testNet, simNet) <= 1
    ensures LastSelected(mainNet, testNet, simNet)
         == (if testNet then TestNet else if simNet then SimNet else MainNet)
  {
  }
}
