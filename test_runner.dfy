/** The test runner: provisions bootstrap nodes and funded, registered agents,
    runs the all-pairs message test, summarises the results and tears
    everything down. Collaborator calls (ledger, peer nodes, the settle delay)
    may succeed or fail; each is recorded, with its outcome, in `calls`. */
module Harness {
  import opened Wrappers
  import opened OrderedMaps
  import opened Naming
  import opened Network
  import opened MessagePlan
  import opened Results
  import opened Provisioning

  /** The payload of an inbound `message` event. */
  datatype InboundMessage = InboundMessage(fromAgentId: string, toAgentId: string, content: string)

  /** One delivery recorded by the message listener. */
  datatype TestMessage = TestMessage(from: string, to: string, content: string, timestamp: int)

  /** How long the message test waits for deliveries, in milliseconds. */
  const SettleDelay: nat := 5000

  function SendError(p: Pair<PeerNode>): Error
  {
    SendFailed(p.from.value, p.to.value.Address(), Content(p.from.key, p.to.key))
  }

  /** The test's own send phase threw. */
  predicate SendAborted(r: TestResult)
  {
    r.error.Some? && r.error.value.SendFailed?
  }

  class TestRunner {
    var bootstrapNodes: seq<PeerNode>
    var agents: seq<Entry<PeerNode>>
    var messageLog: seq<TestMessage>
    var results: seq<Entry<TestResult>>
    const registryAddress: string
    const rpcUrl: string
    const funderPrivateKey: string
    /** Every collaborator call made so far, with its outcome, in order. */
    ghost var calls: seq<Call>

    ghost predicate Valid()
      reads this
    {
      UniqueKeys(agents) && UniqueKeys(results)
    }

    constructor (registryAddress: string, rpcUrl: string, funderPrivateKey: string)
      ensures Valid()
      ensures bootstrapNodes == [] && agents == [] && messageLog == [] && results == [] && calls == []
      ensures this.registryAddress == registryAddress && this.rpcUrl == rpcUrl
      ensures this.funderPrivateKey == funderPrivateKey
    {
      bootstrapNodes, agents, messageLog, results := [], [], [], [];
      this.registryAddress, this.rpcUrl, this.funderPrivateKey := registryAddress, rpcUrl, funderPrivateKey;
      calls := [];
    }

    // ---- collaborator calls: each may fail, and is recorded

    /** `client.getBalance`; `None` when the query throws. */
    method QueryBalance(account: Address) returns (balance: Option<nat>)
      modifies this`calls
      ensures calls == old(calls) + [GetBalance(account, balance)]
    {
      balance := *;
      calls := calls + [GetBalance(account, balance)];
    }

    /** `funderClient.sendTransaction({to, value})`. */
    method Transfer(to: Address, value: nat) returns (ok: bool)
      modifies this`calls
      ensures calls == old(calls) + [SendTransaction(to, value, ok)]
    {
      ok := *;
      calls := calls + [SendTransaction(to, value, ok)];
    }

    /** `publicClient.waitForTransactionReceipt` for the transfer to `to`. */
    method AwaitReceipt(to: Address) returns (ok: bool)
      modifies this`calls
      ensures calls == old(calls) + [WaitForReceipt(to, ok)]
    {
      ok := *;
      calls := calls + [WaitForReceipt(to, ok)];
    }

    /** `node.registerWithContract()`. */
    method Register(node: PeerNode) returns (ok: bool)
      modifies this`calls
      ensures calls == old(calls) + [RegisterWithContract(node, ok)]
    {
      ok := *;
      calls := calls + [RegisterWithContract(node, ok)];
    }

    /** `node.on("message", ...)`, attaching `HandleMessage`. */
    method Listen(node: PeerNode)
      modifies this`calls
      ensures calls == old(calls) + [AddMessageListener(node)]
    {
      calls := calls + [AddMessageListener(node)];
    }

    /** `node.start(port)`. */
    method StartNode(node: PeerNode, port: nat) returns (ok: bool)
      modifies this`calls
      ensures calls == old(calls) + [Start(node, port, ok)]
    {
      ok := *;
      calls := calls + [Start(node, port, ok)];
    }

    /** `node.stop()`. */
    method StopNode(node: PeerNode) returns (ok: bool)
      modifies this`calls
      ensures calls == old(calls) + [Stop(node, ok)]
    {
      ok := *;
      calls := calls + [Stop(node, ok)];
    }

    /** `from.sendMessage(to, content)`. */
    method Send(from: PeerNode, to: Address, content: string) returns (ok: bool)
      modifies this`messageLog, this`calls
      ensures calls == old(calls) + [SendMessage(from, to, content, ok)]
      ensures old(messageLog) <= messageLog
    {
      ok := *;
      calls := calls + [SendMessage(from, to, content, ok)];
      var arrived: seq<TestMessage> := *;
      messageLog := messageLog + arrived;
    }

    /** The settle delay. While it, or a send, is awaited, the listeners may
        log any number of deliveries. */
    method Settle()
      modifies this`messageLog, this`calls
      ensures calls == old(calls) + [Sleep(SettleDelay)]
      ensures old(messageLog) <= messageLog
    {
      calls := calls + [Sleep(SettleDelay)];
      var arrived: seq<TestMessage> := *;
      messageLog := messageLog + arrived;
    }

    // ---- the runner's operations

    /** The `message` listener of every agent: one event, one log entry. */
    method HandleMessage(msg: InboundMessage, now: int)
      modifies this`messageLog
      ensures messageLog == old(messageLog) + [TestMessage(msg.fromAgentId, msg.toAgentId, msg.content, now)]
    {
      messageLog := messageLog + [TestMessage(msg.fromAgentId, msg.toAgentId, msg.content, now)];
    }

    /** Sends `FundingAmount` to `address` and waits for the receipt; any
        failure is reported as `false`, never thrown. `transferred` says
        whether the transfer itself was accepted. */
    method FundAgent(address: Address) returns (funded: bool, ghost transferred: bool)
      modifies this`calls
      ensures calls == old(calls) + FundingCalls(address, transferred, funded)
      ensures funded ==> transferred
    {
      var sent := Transfer(address, FundingAmount);
      transferred := sent;
      if !sent {
        return false, transferred;
      }
      var confirmed := AwaitReceipt(address);
      if !confirmed {
        return false, transferred;
      }
      return true, transferred;
    }

    /** Starts bootstrap nodes `0..count-1` one by one, each under a fresh key
        on its own port, and appends each to `bootstrapNodes` once started.
        The first failed start is thrown; nodes started before it stay. */
    method StartBootstrapNodes(count: int := 2) returns (status: Outcome<Error>, ghost nodes: seq<PeerNode>)
      requires Valid()
      modifies this`bootstrapNodes, this`calls
      ensures Valid()
      ensures bootstrapNodes == old(bootstrapNodes) + nodes
      ensures forall j :: 0 <= j < |nodes| ==>
                fresh(nodes[j]) && IsBootstrapNode(nodes[j], j, registryAddress, rpcUrl)
      ensures status.Pass? ==> |nodes| == (if count < 0 then 0 else count)
      ensures status.Pass? ==> calls == old(calls) + BootstrapStarts(nodes)
      ensures status.Fail? ==>
                && |nodes| < count && status.error.StartFailed? && fresh(status.error.node)
                && IsBootstrapNode(status.error.node, |nodes|, registryAddress, rpcUrl)
                && status.error.port == BootstrapPort(|nodes|)
                && calls == old(calls) + BootstrapStarts(nodes) + [Start(status.error.node, status.error.port, false)]
    {
      nodes := [];
      var i := 0;
      while i < count
        invariant 0 <= i == |nodes| <= (if count < 0 then 0 else count)
        invariant bootstrapNodes == old(bootstrapNodes) + nodes
        invariant forall j :: 0 <= j < |nodes| ==>
                    fresh(nodes[j]) && IsBootstrapNode(nodes[j], j, registryAddress, rpcUrl)
        invariant calls == old(calls) + BootstrapStarts(nodes)
      {
        var port := BootstrapBasePort + i;
        var key := new KeyPair();
        var node := new PeerNode(key, BootstrapName(i), Version, NoMetadata, registryAddress, rpcUrl);
        var started := StartNode(node, port);
        if !started {
          status := Fail(StartFailed(node, port));
          return;
        }
        bootstrapNodes := bootstrapNodes + [node];
        nodes := nodes + [node];
        BootstrapStartsStep(nodes[..i], node);
        AppendAssoc(old(calls), BootstrapStarts(nodes[..i]), [Start(node, port, true)]);
        i := i + 1;
      }
      status := Pass;
    }

    /** Provisions agents `0..count-1` one by one: fresh key, balance query,
        funding when the balance is zero, registration, message listener,
        start on its port, and only then `agents.set`. The first failure is
        thrown (a failed funding as `FundingFailed(i, address)`); agents
        recorded before it stay. */
    method CreateAgents(count: int) returns (status: Outcome<Error>, ghost nodes: seq<PeerNode>,
                                             ghost logs: seq<seq<Call>>)
      requires Valid()
      modifies this`agents, this`calls
      ensures Valid()
      ensures agents == RecordAgents(old(agents), nodes)
      ensures calls == old(calls) + Flatten(logs)
      ensures |logs| == |nodes| + (if status.Fail? then 1 else 0)
      ensures AllProvisioned(nodes, logs, registryAddress, rpcUrl)
      ensures status.Pass? ==> |nodes| == (if count < 0 then 0 else count)
      ensures status.Fail? ==>
                |nodes| < count && AgentAborted(logs[|nodes|], |nodes|, status.error, registryAddress, rpcUrl)
    {
      nodes, logs := [], [];
      var i := 0;
      while i < count
        invariant 0 <= i == |nodes| == |logs| <= (if count < 0 then 0 else count)
        invariant agents == RecordAgents(old(agents), nodes)
        invariant calls == old(calls) + Flatten(logs)
        invariant AllProvisioned(nodes, logs, registryAddress, rpcUrl)
      {
        var outcome, node, seg := ProvisionAgent(i);
        FlattenStep(logs, seg);
        AppendAssoc(old(calls), Flatten(logs), seg);
        if outcome.Fail? {
          ProvisionedExtend(nodes, logs, seg, registryAddress, rpcUrl);
          logs := logs + [seg];
          RecordAgentsUnique(old(agents), nodes);
          status := outcome;
          return;
        }
        var created: PeerNode := node;
        ProvisionedStep(nodes, logs, created, seg, registryAddress, rpcUrl);
        logs := logs + [seg];
        RecordAgentsStep(old(agents), nodes, created);
        agents := Set(agents, AgentName(i), created);
        nodes := nodes + [created];
        i := i + 1;
      }
      RecordAgentsUnique(old(agents), nodes);
      status := Pass;
    }

    /** One pass of the `createAgents` loop up to, not including, `agents.set`:
        the node it returns has been registered, given its listener and
        started, in that order. */
    method ProvisionAgent(i: nat) returns (status: Outcome<Error>, node: PeerNode?, ghost seg: seq<Call>)
      modifies this`calls
      ensures calls == old(calls) + seg
      ensures status.Pass? ==>
                node != null && fresh(node) && AgentReady(node, i, seg, registryAddress, rpcUrl)
      ensures status.Fail? ==> AgentAborted(seg, i, status.error, registryAddress, rpcUrl)
    {
      ghost var before := calls;
      node := null;
      var port := AgentBasePort + i;
      var key := new KeyPair();
      var balance := QueryBalance(key);
      seg := [GetBalance(key, balance)];
      if balance.None? {
        status := Fail(BalanceQueryFailed(key));
        return;
      }
      if balance.value == 0 {
        var funded, transferred := FundAgent(key);
        if !funded {
          AppendAssoc(before, seg, FundingCalls(key, transferred, false));
          status, seg := Fail(FundingFailed(i, key)), seg + FundingCalls(key, transferred, false);
          return;
        }
      }
      AppendAssoc(before, seg, GateCalls(key, balance.value));
      seg := seg + GateCalls(key, balance.value);
      node := new PeerNode(key, AgentName(i), Version, AgentMetadata(i), registryAddress, rpcUrl);
      var registered := Register(node);
      AppendAssoc(before, seg, [RegisterWithContract(node, registered)]);
      seg := seg + [RegisterWithContract(node, registered)];
      if !registered {
        status := Fail(RegistrationFailed(node));
        return;
      }
      Listen(node);
      AppendAssoc(before, seg, [AddMessageListener(node)]);
      seg := seg + [AddMessageListener(node)];
      var started := StartNode(node, port);
      AppendAssoc(before, seg, [Start(node, port, started)]);
      seg := seg + [Start(node, port, started)];
      if !started {
        status := Fail(StartFailed(node, port));
        return;
      }
      status := Pass;
    }

    /** The inner loop of the send phase for sender `from`: one `sendMessage`
        per receiver of `Row(from, receivers)`, in order. `count` is the
        number of sends that returned; when one throws, it is the position
        of the failed pair in the row. */
    method SendRow(from: Entry<PeerNode>, receivers: seq<Entry<PeerNode>>) returns (count: nat, failure: Option<Error>)
      modifies this`messageLog, this`calls
      ensures old(messageLog) <= messageLog
      ensures failure.None? ==>
                count == |Row(from, receivers)| && calls == old(calls) + SendCalls(Row(from, receivers))
      ensures failure.Some? ==>
                && count < |Row(from, receivers)| && failure.value == SendError(Row(from, receivers)[count])
                && calls == old(calls) + SendCalls(Row(from, receivers)[..count])
                   + [SendCall(Row(from, receivers)[count], false)]
    {
      count, failure := 0, None;
      var fromName, fromNode := from.key, from.value;
      var j := 0;
      while j < |receivers|
        invariant j <= |receivers|
        invariant count == |Row(from, receivers[..j])|
        invariant calls == old(calls) + SendCalls(Row(from, receivers[..j]))
        invariant old(messageLog) <= messageLog
      {
        var toName, toNode := receivers[j].key, receivers[j].value;
        ghost var done := Row(from, receivers[..j]);
        RowStep(from, receivers, j);
        if fromName != toName {
          var pair := Pair(from, receivers[j]);
          RowNext(from, receivers, j);
          var ok := Send(fromNode, toNode.Address(), Content(fromName, toName));
          if !ok {
            failure := Some(SendError(pair));
            return;
          }
          SendCallsSnoc(done, pair);
          AppendAssoc(old(calls), SendCalls(done), [SendCall(pair, true)]);
          count := count + 1;
        }
        j := j + 1;
      }
      assert receivers[..j] == receivers;
    }

    /** The send phase of `runMessageTest`: one `sendMessage` per pair of
        `AllPairs(agents)`, in order, counting the sends that returned. The
        first send that throws ends the phase; it is not counted. */
    method SendAll() returns (sent: nat, failure: Option<Error>)
      modifies this`messageLog, this`calls
      ensures old(messageLog) <= messageLog
      ensures failure.None? ==>
                sent == |AllPairs(agents)| && calls == old(calls) + SendCalls(AllPairs(agents))
      ensures failure.Some? ==>
                && sent < |AllPairs(agents)| && failure.value == SendError(AllPairs(agents)[sent])
                && calls == old(calls) + SendCalls(AllPairs(agents)[..sent])
                   + [SendCall(AllPairs(agents)[sent], false)]
    {
      var all := agents;
      sent, failure := 0, None;
      var i := 0;
      while i < |all|
        invariant i <= |all| && failure.None?
        invariant sent == |Plan(all[..i], all)|
        invariant calls == old(calls) + SendCalls(Plan(all[..i], all))
        invariant old(messageLog) <= messageLog
      {
        ghost var done, row := Plan(all[..i], all), Row(all[i], all);
        var count;
        count, failure := SendRow(all[i], all);
        if failure.Some? {
          SentBeforeAbort(all, i, count);
          AppendAssoc(old(calls), SendCalls(done), SendCalls(row[..count]));
          sent := sent + count;
          return;
        }
        SentAfterRow(all, i);
        AppendAssoc(old(calls), SendCalls(done), SendCalls(row));
        sent := sent + count;
        i := i + 1;
      }
      assert all[..i] == all;
    }

    /** `runMessageTest()`, with the two clock readings as parameters: the send
        phase, the settle delay, then the received count (the whole message
        log) against `n*(n-1)` for `n` agents. Any failure is caught and
        recorded; the result is stored under `message-test`. */
    method RunMessageTest(startTime: int, endTime: int) returns (result: TestResult)
      requires Valid()
      modifies this`messageLog, this`results, this`calls
      ensures Valid()
      ensures results == Set(old(results), MessageTestName, result)
      ensures result.Consistent() && result.startTime == startTime && result.endTime == endTime
      ensures old(messageLog) <= messageLog
      ensures SendAborted(result) ==>
                && result.messagesSent < |AllPairs(agents)| && result.messagesReceived == 0
                && result.error == Some(SendError(AllPairs(agents)[result.messagesSent]))
                && calls == old(calls) + SendCalls(AllPairs(agents)[..result.messagesSent])
                   + [SendCall(AllPairs(agents)[result.messagesSent], false)]
      ensures !SendAborted(result) ==>
                && result.messagesSent == |AllPairs(agents)| == |agents| * (|agents| - 1)
                && calls == old(calls) + SendCalls(AllPairs(agents)) + [Sleep(SettleDelay)]
                && result.messagesReceived == |messageLog|
      ensures !SendAborted(result) ==> (result.success <==> |messageLog| == |agents| * (|agents| - 1))
      ensures !SendAborted(result) && !result.success ==>
                result.error == Some(CountMismatch(|agents| * (|agents| - 1), |messageLog|))
    {
      var all := agents;
      ghost var plan := AllPairs(all);
      AllPairsLength(all);
      var expected := |all| * (|all| - 1);
      assert expected == |plan|;
      var sent, failure := SendAll();
      if failure.Some? {
        result := TestResult(false, failure, sent, 0, startTime, endTime);
      } else {
        Settle();
        var received := |messageLog|;
        if received != expected {
          result := TestResult(false, Some(CountMismatch(expected, received)), sent, received, startTime, endTime);
        } else {
          result := TestResult(true, None, sent, received, startTime, endTime);
        }
      }
      SetUnique(results, MessageTestName, result);
      results := Set(results, MessageTestName, result);
    }

    /** `generateSummary()`: counts and durations over `results.values()`. */
    method GenerateSummary() returns (summary: TestSummary)
      ensures summary.totalTests == |results| && summary.results == results
      ensures summary.passedTests == PassedCount(results)
      ensures summary.failedTests == FailedCount(results)
      ensures summary.duration == TotalDuration(results)
      ensures summary.passedTests + summary.failedTests == summary.totalTests
    {
      var passed, failed, duration := 0, 0, 0;
      var i := 0;
      while i < |results|
        invariant i <= |results|
        invariant passed == PassedCount(results[..i]) && failed == FailedCount(results[..i])
        invariant duration == TotalDuration(results[..i])
      {
        var result := results[i].value;
        assert results[..i + 1][..i] == results[..i];
        if result.success {
          passed := passed + 1;
        } else {
          failed := failed + 1;
        }
        duration := duration + (result.endTime - result.startTime);
        i := i + 1;
      }
      assert results[..i] == results;
      PassedPlusFailed(results);
      summary := TestSummary(|results|, passed, failed, results, duration);
    }

    /** `cleanup()`: stops every agent, clears `agents`, stops every bootstrap
        node, then clears the node list, the message log and the results. A
        stop that throws ends it there, leaving the rest as it stands. */
    method Cleanup() returns (status: Outcome<Error>, ghost stopped: nat)
      requires Valid()
      modifies this`agents, this`bootstrapNodes, this`messageLog, this`results, this`calls
      ensures Valid()
      ensures status.Pass? ==>
                && agents == [] && bootstrapNodes == [] && messageLog == [] && results == []
                && calls == old(calls) + StopCalls(Values(old(agents)) + old(bootstrapNodes))
      ensures status.Fail? ==>
                var running := Values(old(agents)) + old(bootstrapNodes);
                && stopped < |running| && status.error == StopFailed(running[stopped])
                && calls == old(calls) + StopCalls(running[..stopped]) + [Stop(running[stopped], false)]
                && agents == (if stopped < |old(agents)| then old(agents) else [])
                && bootstrapNodes == old(bootstrapNodes)
                && messageLog == old(messageLog) && results == old(results)
    {
      var agentNodes := Values(agents);
      ghost var running := agentNodes + bootstrapNodes;
      var n := StopEach(agentNodes);
      if n < |agentNodes| {
        assert running[..n] == agentNodes[..n];
        status, stopped := Fail(StopFailed(agentNodes[n])), n;
        return;
      }
      agents := [];
      var m := StopEach(bootstrapNodes);
      StopCallsAppend(agentNodes, bootstrapNodes[..m]);
      AppendAssoc(old(calls), StopCalls(agentNodes), StopCalls(bootstrapNodes[..m]));
      stopped := |agentNodes| + m;
      if m < |bootstrapNodes| {
        assert running[..stopped] == agentNodes + bootstrapNodes[..m];
        status := Fail(StopFailed(bootstrapNodes[m]));
        return;
      }
      assert bootstrapNodes[..m] == bootstrapNodes;
      bootstrapNodes := [];
      messageLog, results := [], [];
      status := Pass;
    }

    /** One of the two `stop()` loops of `cleanup()`: stops `nodes` in order
        until one fails. `stopped` is the number stopped; when it is short of
        `|nodes|`, the next node's stop is the call that failed. */
    method StopEach(nodes: seq<PeerNode>) returns (stopped: nat)
      modifies this`calls
      ensures stopped <= |nodes|
      ensures stopped == |nodes| ==> calls == old(calls) + StopCalls(nodes)
      ensures stopped < |nodes| ==>
                calls == old(calls) + StopCalls(nodes[..stopped]) + [Stop(nodes[stopped], false)]
    {
      stopped := 0;
      while stopped < |nodes|
        invariant stopped <= |nodes|
        invariant calls == old(calls) + StopCalls(nodes[..stopped])
      {
        var ok := StopNode(nodes[stopped]);
        if !ok {
          return;
        }
        StopCallsStep(nodes[..stopped], nodes[stopped]);
        AppendAssoc(old(calls), StopCalls(nodes[..stopped]), [Stop(nodes[stopped], true)]);
        assert nodes[..stopped + 1] == nodes[..stopped] + [nodes[stopped]];
        stopped := stopped + 1;
      }
      assert nodes[..stopped] == nodes;
    }
  }
}
