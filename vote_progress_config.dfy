/**
 * The derived parts of the vote progress tool's configuration
 * (voteprogress/config.go): network selection and the default node address.
 */
module VoteProgressConfig {
  import opened Wrappers
  import opened Networks

  datatype ConfigError = ConflictingNetworks

  /** The fields of `config` the selection reads and fills. */
  class Config {
    var mainNet: bool
    var testNet: bool
    var simNet: bool
    var dcrdConnect: string
    var activeNet: Network
    var chainParams: Option<Network>

    constructor (mainNet: bool, testNet: bool, simNet: bool, dcrdConnect: string)
      ensures this.mainNet == mainNet && this.testNet == testNet && this.simNet == simNet
      ensures this.dcrdConnect == dcrdConnect
      ensures activeNet == MainNet && chainParams == None
    {
      this.mainNet, this.testNet, this.simNet := mainNet, testNet, simNet;
      this.dcrdConnect := dcrdConnect;
      activeNet := MainNet;
      chainParams := None;
    }

    /**
     * `fillActiveNet`: the last set flag (main, test, sim order) wins, mainnet
     * when none is set; more than one flag is an error that leaves
     * `chainParams` unassigned.
     */
    method FillActiveNet() returns (err: Option<ConfigError>)
      modifies this`activeNet, this`chainParams
      ensures activeNet == LastSelected(mainNet, testNet, simNet)
      ensures err.Some? <==> FlagCount(mainNet, testNet, simNet) > 1
      ensures err.Some? ==> chainParams == old(chainParams)
      ensures err.None? ==> chainParams == Some(activeNet)
    {
      var numNets := 0;
      activeNet := MainNet;
      if mainNet {
        numNets := numNets + 1;
        activeNet := MainNet;
      }
      if testNet {
        numNets := numNets + 1;
        activeNet := TestNet;
      }
      if simNet {
        numNets := numNets + 1;
        activeNet := SimNet;
      }
      if numNets > 1 {
        return Some(ConflictingNetworks);
      }
      chainParams := Some(activeNet);
      return None;
    }

    /**
     * The end of `loadConfig`: select the network, then fill an empty node
     * address with that network's default; an address given by the user is
     * kept.
     */
    method ResolveNetwork() returns (err: Option<ConfigError>)
      modifies this`activeNet, this`chainParams, this`dcrdConnect
      ensures err.Some? <==> FlagCount(mainNet, testNet, simNet) > 1
      ensures err.Some? ==> dcrdConnect == old(dcrdConnect)
      ensures err.None? ==>
        && activeNet == LastSelected(mainNet, testNet, simNet)
        && chainParams == Some(LastSelected(mainNet, testNet, simNet))
        && dcrdConnect == (if old(dcrdConnect) == "" then DefaultDcrdRPCConnect(LastSelected(mainNet, testNet, simNet)) else old(dcrdConnect))
    {
      err := FillActiveNet();
      if err.Some? {
        return;
      }
      if dcrdConnect == "" {
        dcrdConnect := DefaultDcrdRPCConnect(activeNet);
      }
    }
  }
}
