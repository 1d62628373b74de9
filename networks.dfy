/**
 * Two small network guards of scripts/utils/index.js: the block explorer
 * domain of a named network, and the refusal to use Hardhat's well-known
 * first test account outside the local Hardhat chain.
 */
module Networks {
  import opened Wrappers

  /** `getBlockExplorerDomain(hre)` on `hre.network.name`; `undefined` for any other network is `None`. */
  function BlockExplorerDomain(network: string): (domain: Option<string>)
    ensures domain.Some? <==> network in {"mainnet", "goerli", "polygon", "matic", "mumbai"}
  {
    match network
    case "mainnet" => Some("etherscan.io")
    case "goerli" => Some(network + ".etherscan.io")
    case "polygon" => Some("polygonscan.com")
    case "matic" => Some("polygonscan.com")
    case "mumbai" => Some("mumbai.polygonscan.com")
    case _ => None
  }

  /**
   * The Ethereum networks are served by Etherscan and the Polygon ones by
   * Polygonscan; `polygon` and `matic` are two names for the same network.
   * Every other network, `hardhat` among them, has no explorer.
   */
  lemma ExplorerDomains()
    ensures BlockExplorerDomain("mainnet") == Some("etherscan.io")
    ensures BlockExplorerDomain("goerli") == Some("goerli.etherscan.io")
    ensures BlockExplorerDomain("polygon") == BlockExplorerDomain("matic") == Some("polygonscan.com")
    ensures BlockExplorerDomain("mumbai") == Some("mumbai.polygonscan.com")
    ensures BlockExplorerDomain("hardhat") == None
    ensures forall n :: n !in {"mainnet", "goerli", "polygon", "matic", "mumbai"} ==> BlockExplorerDomain(n) == None
  {
    assert "goerli" + ".etherscan.io" == "goerli.etherscan.io";
  }

  /** The chain id of the local Hardhat network. */
  const HardhatChainId: int := 31337

  /** The address of Hardhat's first default test account, whose private key is public. */
  const HardhatDeployer: string := "0xf39Fd6e51aad88F6F4ce6aB8827279cffFb92266"

  datatype GuardError = UsingHardhatKeyForOtherNetwork

  /**
   * `assertNotUsingHardhatKeys(chainId, deployer)`: fails exactly when the
   * deployer is the well-known test account and the chain is not the local
   * Hardhat chain. The address is compared as an exact string.
   */
  function AssertNotUsingHardhatKeys(chainId: int, deployerAddress: string): (r: Result<(), GuardError>)
    ensures r.Failure? <==> chainId != HardhatChainId && deployerAddress == HardhatDeployer
  {
    if chainId != HardhatChainId && deployerAddress == HardhatDeployer then Failure(UsingHardhatKeyForOtherNetwork)
    else Success(())
  }

  /** The test account may deploy to the local chain, and any other account anywhere. */
  lemma GuardAllowsLocalChainAndOtherAccounts(chainId: int, deployerAddress: string)
    ensures AssertNotUsingHardhatKeys(HardhatChainId, deployerAddress).Success?
    ensures deployerAddress != HardhatDeployer ==> AssertNotUsingHardhatKeys(chainId, deployerAddress).Success?
  {
  }
}
