/**
 * The network selection of the spend estimator's configuration
 * (spendestimate/config.go): a switch over the three flags, then a default
 * node address chosen by the selected parameters' name.
 */
module SpendEstimateConfig {
  import opened Wrappers
  import opened Networks

  datatype ConfigError = InvalidNetworkConfig

  /**
   * The network switch of `loadConfig`, lifted out of the method: its first
   * case falls through into the second, so mainnet is chosen whenever
   * neither testnet nor simnet is set, whatever the mainnet flag says.
   */
  function SelectNetwork(mainNet: bool, testNet: bool, simNet: bool): Option<Network>
  {
    if mainNet && !(testNet || simNet) then Some(MainNet)
    else if !(testNet || simNet) then Some(MainNet)
    else if testNet && !(mainNet || simNet) then Some(TestNet)
    else if simNet && !(mainNet || testNet) then Some(SimNet)
    else None
  }

  /**
   * The switch agrees with the other tools' `fillActiveNet`: it fails
   * exactly when two or more flags are set, and otherwise picks the network
   * of the one flag set (mainnet with none).
   */
  lemma SelectNetworkIsFillActiveNet(mainNet: bool, testNet: bool, simNet: bool)
    ensures SelectNetwork(mainNet, testNet, simNet).None? <==> FlagCount(mainNet, testNet, simNet) > 1
    ensures FlagCount(mainNet, testNet, simNet) <= 1 ==>
      SelectNetwork(mainNet, testNet, simNet) == Some(LastSelected(mainNet, testNet, simNet))
  {
  }

  /** The default-address switch on `chainParams.Name`; a name it does not know leaves the address empty. */
  function ConnectForName(name: string): (r: Option<string>)
    ensures r.Some? <==> name in {"mainnet", "testnet3", "simnet"}
  {
    if name == "mainnet" then Some("localhost:9109")
    else if name == "testnet3" then Some("localhost:19109")
    else if name == "simnet" then Some("localhost:19556")
    else None
  }

  /** Choosing by parameter name gives the same address as the per-network default of the other tools. */
  lemma ConnectForNameAgrees(n: Network)
    ensures ConnectForName(ParamsName(n)) == Some(DefaultDcrdRPCConnect(n))
  {
  }

  /** The fields of `config` the selection reads and fills. */
  class Config {
    var mainNet: bool
    var testNet: bool
    var simNet: bool
    var dcrdConnect: string
    var height: nat
    var chainParams: Option<Network>

    constructor (mainNet: bool, testNet: bool, simNet: bool, dcrdConnect: string, height: nat)
      ensures this.mainNet == mainNet && this.testNet == testNet && this.simNet == simNet
      ensures this.dcrdConnect == dcrdConnect && this.height == height && chainParams == None
    {
      this.mainNet, this.testNet, this.simNet := mainNet, testNet, simNet;
      this.dcrdConnect, this.height := dcrdConnect, height;
      chainParams := None;
    }

    /**
     * The part of `loadConfig` after flag parsing: the network switch, whose
     * default case is the error, then the default node address when none
     * was given.
     */
    method ResolveNetwork() returns (err: Option<ConfigError>)
      modifies this`chainParams, this`dcrdConnect
      ensures err.Some? <==> FlagCount(mainNet, testNet, simNet) > 1
      ensures err.Some? ==> chainParams == old(chainParams) && dcrdConnect == old(dcrdConnect)
      ensures err.None? ==>
        && chainParams == SelectNetwork(mainNet, testNet, simNet)
        && chainParams == Some(LastSelected(mainNet, testNet, simNet))
        && dcrdConnect == (if old(dcrdConnect) == "" then DefaultDcrdRPCConnect(chainParams.value)
                           else old(dcrdConnect))
    {
      // The first case of the switch falls through into the second.
      if (mainNet && !(testNet || simNet)) || !(testNet || simNet) {
        chainParams := Some(MainNet);
      } else if testNet && !(mainNet || simNet) {
        chainParams := Some(TestNet);
      } else if simNet && !(mainNet || testNet) {
        chainParams := Some(SimNet);
      } else {
        return Some(InvalidNetworkConfig);
      }
      SelectNetworkIsFillActiveNet(mainNet, testNet, simNet);

      if dcrdConnect == "" {
        var name := ParamsName(chainParams.value);
        if name == "mainnet" {
          dcrdConnect := "localhost:9109";
        } else if name == "testnet3" {
          dcrdConnect := "localhost:19109";
        } else if name == "simnet" {
          dcrdConnect := "localhost:19556";
        }
        ConnectForNameAgrees(chainParams.value);
      }
      return None;
    }
  }
}
