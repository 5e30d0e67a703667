/** How the harness names, numbers and describes the nodes it provisions:
    decimal indices in template strings, the two sequential port ranges and
    the metadata handed to each node. */
module Naming {
  import opened Wrappers

  /** The version string every node is constructed with. */
  const Version: string := "1.0.0"

  /** First port of the bootstrap range and of the agent range. */
  const BootstrapBasePort: nat := 14221
  const AgentBasePort: nat := 14230

  function DigitChar(d: nat): (c: char)
    requires d < 10
    ensures '0' <= c <= '9'
  {
    (('0' as int) + d) as char
  }

  /** The decimal rendering of `n` that a template literal `${n}` produces. */
  function NatToString(n: nat): (s: string)
    ensures |s| >= 1
    ensures n >= 10 ==> |s| >= 2
    ensures forall c :: c in s ==> '0' <= c <= '9'
    decreases n
  {
    if n < 10 then [DigitChar(n)] else NatToString(n / 10) + [DigitChar(n % 10)]
  }

  /** Distinct indices render to distinct strings. */
  lemma {:induction false} NatToStringInjective(a: nat, b: nat)
    ensures NatToString(a) == NatToString(b) <==> a == b
    decreases a
  {
    if NatToString(a) == NatToString(b) && a >= 10 && b >= 10 {
      var sa, sb := NatToString(a), NatToString(b);
      assert sa[|sa| - 1] == DigitChar(a % 10) && sb[|sb| - 1] == DigitChar(b % 10);
      assert NatToString(a / 10) == sa[..|sa| - 1] == sb[..|sb| - 1] == NatToString(b / 10);
      NatToStringInjective(a / 10, b / 10);
    }
  }

  /** `bootstrap-${i}` */
  function BootstrapName(i: nat): string
  {
    "bootstrap-" + NatToString(i)
  }

  /** `test-agent-${i}` */
  function AgentName(i: nat): string
  {
    "test-agent-" + NatToString(i)
  }

  /** Strings with a common prefix are equal exactly when their tails are. */
  lemma SamePrefix(p: string, x: string, y: string)
    ensures p + x == p + y <==> x == y
  {
    if p + x == p + y {
      assert x == (p + x)[|p|..] && y == (p + y)[|p|..];
    }
  }

  lemma BootstrapNamesDistinct(i: nat, j: nat)
    ensures BootstrapName(i) == BootstrapName(j) <==> i == j
  {
    SamePrefix("bootstrap-", NatToString(i), NatToString(j));
    NatToStringInjective(i, j);
  }

  lemma AgentNamesDistinct(i: nat, j: nat)
    ensures AgentName(i) == AgentName(j) <==> i == j
  {
    SamePrefix("test-agent-", NatToString(i), NatToString(j));
    NatToStringInjective(i, j);
  }

  /** No agent is ever named like a bootstrap node. */
  lemma BootstrapAndAgentNamesDiffer(i: nat, j: nat)
    ensures BootstrapName(i) != AgentName(j)
  {
    assert BootstrapName(i)[0] == 'b' && AgentName(j)[0] == 't';
  }

  /** Port of bootstrap node `i` (`startPort + i` with `startPort = 14221`). */
  function BootstrapPort(i: nat): (p: nat)
    ensures p >= BootstrapBasePort
  {
    BootstrapBasePort + i
  }

  /** Port of agent `i` (`startPort + i` with `startPort = 14230`). */
  function AgentPort(i: nat): (p: nat)
    ensures p >= AgentBasePort
  {
    AgentBasePort + i
  }

  /** The two port ranges are only nine apart: a bootstrap node and an agent
      are given the same port exactly when there are ten or more bootstrap
      nodes and at least one agent. */
  lemma PortRangesOverlap(bootstraps: nat, agents: nat)
    ensures (exists i, j :: 0 <= i < bootstraps && 0 <= j < agents && BootstrapPort(i) == AgentPort(j))
        <==> bootstraps >= 10 && agents >= 1
  {
    if bootstraps >= 10 && agents >= 1 {
      assert BootstrapPort(9) == AgentPort(0);
    }
  }

  /** What `generateAgentCapabilities` returns: the topics an agent processes. */
  datatype Capabilities = Capabilities(canProcess: seq<string>)

  /** The metadata bag a node is constructed with: bootstrap nodes get `{}`,
      agents a creator label, no token address and their capabilities. */
  datatype Metadata =
    | NoMetadata
    | AgentInfo(creators: string, tokenAddress: Option<string>, capabilities: Capabilities)

  function AgentCapabilities(): Capabilities
  {
    Capabilities(["market_sentiment", "financial_news", "market_trends"])
  }

  /** The metadata of agent `i`. */
  function AgentMetadata(i: nat): Metadata
  {
    AgentInfo("Test Framework Agent " + NatToString(i), None, AgentCapabilities())
  }
}
