/** What provisioning a node leaves behind: the collaborator calls each
    step makes, the identity of the nodes it creates, and the `agents` map it
    fills. */
module Provisioning {
  import opened Wrappers
  import opened OrderedMaps
  import opened Naming
  import opened Network

  // ---- the collaborator calls each operation makes

  /** The calls of `fundAgent(address)`: the transfer and, if it was
      accepted, the wait for its receipt. */
  function FundingCalls(address: Address, transferred: bool, confirmed: bool): seq<Call>
  {
    [SendTransaction(address, FundingAmount, transferred)]
    + (if transferred then [WaitForReceipt(address, confirmed)] else [])
  }

  /** The funding gate, passed, after the balance query returned `balance`:
      a confirmed transfer when the balance is zero, nothing otherwise. */
  function GateCalls(address: Address, balance: nat): seq<Call>
  {
    if balance == 0 then FundingCalls(address, true, true) else []
  }

  /** The calls made for agent `i`, to be run by `node`, once the balance
      query returned `balance` and the funding gate was passed: registration,
      and if that succeeded the listener and the start on its port. */
  function ProvisionCalls(node: PeerNode, i: nat, balance: nat, registered: bool, started: bool): seq<Call>
  {
    var registration := [GetBalance(node.key, Some(balance))] + GateCalls(node.key, balance)
                        + [RegisterWithContract(node, registered)];
    if registered then registration + [AddMessageListener(node)] + [Start(node, AgentPort(i), started)]
    else registration
  }

  /** The funding gate: provisioning transfers funds exactly when the
      balance read was zero, and then only the fixed amount, once. */
  lemma FundingOnlyAtZero(node: PeerNode, i: nat, balance: nat, registered: bool, started: bool)
    ensures var cs := ProvisionCalls(node, i, balance, registered, started);
            (exists c :: c in cs && c.SendTransaction?) <==> balance == 0
    ensures var cs := ProvisionCalls(node, i, balance, registered, started);
            forall c :: c in cs && c.SendTransaction? ==> c == SendTransaction(node.key, FundingAmount, true)
  {
    var cs := ProvisionCalls(node, i, balance, registered, started);
    if balance == 0 {
      assert cs[1] == SendTransaction(node.key, FundingAmount, true);
    }
  }

  /** A fully provisioned agent's last three calls are its registration, its
      listener and its start on port `14230 + i`, in that order. */
  lemma ProvisionOrder(node: PeerNode, i: nat, balance: nat)
    ensures var cs := ProvisionCalls(node, i, balance, true, true);
            && |cs| >= 4 && cs[0] == GetBalance(node.key, Some(balance))
            && cs[|cs| - 3..] == [RegisterWithContract(node, true), AddMessageListener(node), Start(node, AgentPort(i), true)]
  {
  }

  /** The balance a segment starts by reading (0 when it starts otherwise). */
  function BalanceRead(seg: seq<Call>): nat
  {
    if |seg| > 0 && seg[0].GetBalance? && seg[0].balance.Some? then seg[0].balance.value else 0
  }

  ghost predicate IsBootstrapNode(node: PeerNode, i: nat, registry: string, rpc: string)
  {
    && node.name == BootstrapName(i) && node.version == Version && node.metadata == NoMetadata
    && node.registryAddress == registry && node.rpcUrl == rpc
  }

  ghost predicate IsAgentNode(node: PeerNode, i: nat, registry: string, rpc: string)
  {
    && node.name == AgentName(i) && node.version == Version && node.metadata == AgentMetadata(i)
    && node.registryAddress == registry && node.rpcUrl == rpc
  }

  /** Agent `i` was provisioned as `node`: every call in `seg` succeeded. */
  ghost predicate AgentProvisioned(seg: seq<Call>, i: nat, node: PeerNode)
  {
    seg == ProvisionCalls(node, i, BalanceRead(seg), true, true)
  }

  /** Provisioning agent `i` made the calls `seg` and stopped at the one that
      threw `err`; agent `i` is then not recorded. */
  ghost predicate AgentAborted(seg: seq<Call>, i: nat, err: Error, registry: string, rpc: string)
  {
    match err
    case BalanceQueryFailed(a) => seg == [GetBalance(a, None)]
    case FundingFailed(j, a) =>
      && j == i
      && (|| seg == [GetBalance(a, Some(0))] + FundingCalls(a, false, false)
          || seg == [GetBalance(a, Some(0))] + FundingCalls(a, true, false))
    case RegistrationFailed(node) =>
      IsAgentNode(node, i, registry, rpc) && seg == ProvisionCalls(node, i, BalanceRead(seg), false, false)
    case StartFailed(node, port) =>
      && IsAgentNode(node, i, registry, rpc) && port == AgentPort(i)
      && seg == ProvisionCalls(node, i, BalanceRead(seg), true, false)
    case _ => false
  }

  /** The per-agent call segments, one after the other. */
  ghost function Flatten(logs: seq<seq<Call>>): seq<Call>
  {
    if logs == [] then [] else Flatten(logs[..|logs| - 1]) + logs[|logs| - 1]
  }

  lemma AppendAssoc<T>(a: seq<T>, b: seq<T>, c: seq<T>)
    ensures (a + b) + c == a + (b + c)
  {
  }

  lemma FlattenStep(logs: seq<seq<Call>>, seg: seq<Call>)
    ensures Flatten(logs + [seg]) == Flatten(logs) + seg
  {
    assert (logs + [seg])[..|logs|] == logs;
  }

  /** Successful `start` calls of bootstrap nodes `0..|nodes|-1`. */
  ghost function BootstrapStarts(nodes: seq<PeerNode>): seq<Call>
  {
    seq(|nodes|, j requires 0 <= j < |nodes| => Start(nodes[j], BootstrapPort(j), true))
  }

  lemma BootstrapStartsStep(nodes: seq<PeerNode>, node: PeerNode)
    ensures BootstrapStarts(nodes + [node]) == BootstrapStarts(nodes) + [Start(node, BootstrapPort(|nodes|), true)]
  {
    var l, r := BootstrapStarts(nodes + [node]), BootstrapStarts(nodes) + [Start(node, BootstrapPort(|nodes|), true)];
    assert |l| == |r|;
    forall j | 0 <= j < |l| ensures l[j] == r[j] {
      if j < |nodes| { assert (nodes + [node])[j] == nodes[j]; }
    }
  }

  /** Successful `stop` calls of `nodes`, in order. */
  ghost function StopCalls(nodes: seq<PeerNode>): seq<Call>
  {
    seq(|nodes|, j requires 0 <= j < |nodes| => Stop(nodes[j], true))
  }

  lemma StopCallsAppend(a: seq<PeerNode>, b: seq<PeerNode>)
    ensures StopCalls(a + b) == StopCalls(a) + StopCalls(b)
  {
    var l, r := StopCalls(a + b), StopCalls(a) + StopCalls(b);
    assert |l| == |r|;
    forall j | 0 <= j < |l| ensures l[j] == r[j] {
      if j < |a| { assert (a + b)[j] == a[j]; } else { assert (a + b)[j] == b[j - |a|]; }
    }
  }

  lemma StopCallsStep(nodes: seq<PeerNode>, node: PeerNode)
    ensures StopCalls(nodes + [node]) == StopCalls(nodes) + [Stop(node, true)]
  {
    StopCallsAppend(nodes, [node]);
  }

  /** `agents.set("test-agent-j", nodes[j])` for each `j` in turn. */
  function RecordAgents(m: seq<Entry<PeerNode>>, nodes: seq<PeerNode>): seq<Entry<PeerNode>>
  {
    if nodes == [] then m
    else Set(RecordAgents(m, nodes[..|nodes| - 1]), AgentName(|nodes| - 1), nodes[|nodes| - 1])
  }

  lemma RecordAgentsStep(m: seq<Entry<PeerNode>>, nodes: seq<PeerNode>, node: PeerNode)
    ensures RecordAgents(m, nodes + [node]) == Set(RecordAgents(m, nodes), AgentName(|nodes|), node)
  {
    assert (nodes + [node])[..|nodes|] == nodes;
  }

  /** After recording, agent `j`'s name maps to `nodes[j]`, and every other key
      keeps what it had. */
  lemma {:induction false} RecordAgentsLookup(m: seq<Entry<PeerNode>>, nodes: seq<PeerNode>)
    ensures forall j :: 0 <= j < |nodes| ==> Get(RecordAgents(m, nodes), AgentName(j)) == Some(nodes[j])
    ensures forall k :: (forall j :: 0 <= j < |nodes| ==> k != AgentName(j))
                        ==> Get(RecordAgents(m, nodes), k) == Get(m, k)
  {
    if nodes != [] {
      var n := |nodes| - 1;
      var prev := RecordAgents(m, nodes[..n]);
      RecordAgentsLookup(m, nodes[..n]);
      SetLookup(prev, AgentName(n), nodes[n]);
      var r := RecordAgents(m, nodes);
      assert r == Set(prev, AgentName(n), nodes[n]);
      forall j | 0 <= j < |nodes|
        ensures Get(r, AgentName(j)) == Some(nodes[j])
      {
        if j < n {
          AgentNamesDistinct(j, n);
          assert nodes[..n][j] == nodes[j];
        }
      }
      forall k | (forall j :: 0 <= j < |nodes| ==> k != AgentName(j))
        ensures Get(r, k) == Get(m, k)
      {
        assert k != AgentName(n);
      }
    }
  }

  /** Recording keeps the keys of a map unique. */
  lemma {:induction false} RecordAgentsUnique(m: seq<Entry<PeerNode>>, nodes: seq<PeerNode>)
    requires UniqueKeys(m)
    ensures UniqueKeys(RecordAgents(m, nodes))
  {
    if nodes != [] {
      var n := |nodes| - 1;
      RecordAgentsUnique(m, nodes[..n]);
      SetUnique(RecordAgents(m, nodes[..n]), AgentName(n), nodes[n]);
    }
  }

  /** Starting from no agents, recording `nodes` gives exactly one entry per
      node, named `test-agent-j`, in creation order. */
  lemma {:induction false} RecordAgentsFromEmpty(nodes: seq<PeerNode>)
    ensures |RecordAgents([], nodes)| == |nodes|
    ensures forall j :: 0 <= j < |nodes| ==> RecordAgents([], nodes)[j] == Entry(AgentName(j), nodes[j])
    ensures UniqueKeys(RecordAgents([], nodes))
  {
    if nodes != [] {
      var n := |nodes| - 1;
      var prev := RecordAgents([], nodes[..n]);
      RecordAgentsFromEmpty(nodes[..n]);
      assert AgentName(n) !in Keys(prev) by {
        forall j | 0 <= j < n ensures Keys(prev)[j] != AgentName(n) {
          AgentNamesDistinct(j, n);
        }
      }
      var r := RecordAgents([], nodes);
      assert r == prev + [Entry(AgentName(n), nodes[n])];
      forall j | 0 <= j < |nodes| ensures r[j] == Entry(AgentName(j), nodes[j]) {
        if j < n {
          assert nodes[..n][j] == nodes[j];
        }
      }
      forall i, j | 0 <= i < j < |r| ensures r[i].key != r[j].key {
        AgentNamesDistinct(i, j);
      }
    }
  }

  /** Agent `i` is `node`, built as `createAgents` builds it, and its calls
      `seg` all succeeded. */
  ghost predicate AgentReady(node: PeerNode, i: nat, seg: seq<Call>, registry: string, rpc: string)
  {
    IsAgentNode(node, i, registry, rpc) && AgentProvisioned(seg, i, node)
  }

  /** Agents `0..|nodes|-1` were each provisioned as described, `logs[j]`
      holding agent `j`'s calls. */
  ghost predicate AllProvisioned(nodes: seq<PeerNode>, logs: seq<seq<Call>>, registry: string, rpc: string)
    requires |nodes| <= |logs|
  {
    forall j :: 0 <= j < |nodes| ==> AgentReady(nodes[j], j, logs[j], registry, rpc)
  }

  lemma ProvisionedStep(nodes: seq<PeerNode>, logs: seq<seq<Call>>, node: PeerNode, seg: seq<Call>,
                        registry: string, rpc: string)
    requires |nodes| == |logs| && AllProvisioned(nodes, logs, registry, rpc)
    requires AgentReady(node, |nodes|, seg, registry, rpc)
    ensures AllProvisioned(nodes + [node], logs + [seg], registry, rpc)
  {
  }

  lemma ProvisionedExtend(nodes: seq<PeerNode>, logs: seq<seq<Call>>, seg: seq<Call>,
                          registry: string, rpc: string)
    requires |nodes| <= |logs| && AllProvisioned(nodes, logs, registry, rpc)
    ensures AllProvisioned(nodes, logs + [seg], registry, rpc)
  {
    assert forall j :: 0 <= j < |logs| ==> (logs + [seg])[j] == logs[j];
  }
}
