/** The harness's collaborators, seen only at their boundary: fresh key pairs,
    peer-node handles, the ledger, and the record of every call the harness
    makes on them together with the outcome it observed. */
module Network {
  import opened Wrappers
  import opened Naming

  /** A freshly generated private key. Its on-chain address is determined by
      it; two generated keys are never the same object. */
  class KeyPair {
    constructor () {}
  }

  /** The address of a key pair, on the ledger and on the peer network. */
  type Address = KeyPair

  /** Wei sent to an unfunded agent: 0.001 ETH. */
  const FundingAmount: nat := 1_000_000_000_000_000

  /** A peer-node handle, bound to one key pair and one name for its life. */
  class PeerNode {
    const key: KeyPair
    const name: string
    const version: string
    const metadata: Metadata
    const registryAddress: string
    const rpcUrl: string

    constructor (key: KeyPair, name: string, version: string, metadata: Metadata,
                 registryAddress: string, rpcUrl: string)
      ensures this.key == key && this.name == name && this.version == version
      ensures this.metadata == metadata
      ensures this.registryAddress == registryAddress && this.rpcUrl == rpcUrl
    {
      this.key := key;
      this.name := name;
      this.version := version;
      this.metadata := metadata;
      this.registryAddress := registryAddress;
      this.rpcUrl := rpcUrl;
    }

    /** `getAddress()`: the network address other peers send to. */
    function Address(): Address
    {
      key
    }
  }

  /** One call on a collaborator and what it returned; `ok == false` means the
      awaited call threw. */
  datatype Call =
    | GetBalance(account: Address, balance: Option<nat>)
    | SendTransaction(to: Address, value: nat, ok: bool)
    | WaitForReceipt(to: Address, ok: bool)
    | RegisterWithContract(node: PeerNode, ok: bool)
    | AddMessageListener(node: PeerNode)
    | Start(node: PeerNode, port: nat, ok: bool)
    | Stop(node: PeerNode, ok: bool)
    | SendMessage(from: PeerNode, to: Address, content: string, ok: bool)
    | Sleep(milliseconds: nat)

  /** What the harness throws, or records as a test's error. */
  datatype Error =
    | BalanceQueryFailed(account: Address)
    | FundingFailed(index: nat, account: Address)
    | RegistrationFailed(node: PeerNode)
    | StartFailed(node: PeerNode, port: nat)
    | SendFailed(from: PeerNode, to: Address, content: string)
    | CountMismatch(expected: int, received: nat)
    | StopFailed(node: PeerNode)
}
