# A verified model of the P2P integration-test runner

`TestRunner` (test/p2p/TestRunner.ts) is the harness that drives the
peer-to-peer integration test. It does four things:

- It starts a few bootstrap nodes.
- It provisions agents. For each agent it queries the balance, funds the agent when the balance is zero, registers it with the registry contract, attaches a `message` listener and starts it on its own port.
- It runs an all-pairs message test and records a `TestResult` per test.
- It summarises the results and tears everything down.

The model is a Dafny class `Harness.TestRunner` with the source's four mutable
fields: `bootstrapNodes`, `agents`, `messageLog` and `results`. The two maps
are insertion-ordered entry sequences (`OrderedMaps`), with `set` replacing a
key in place and appending a new one. Every call on a collaborator (ledger,
peer node, settle delay) is a method whose outcome is arbitrary. It is
recorded, with that outcome, in a ghost trace `calls`. The contracts therefore
say which calls each operation makes, in what order, and what state it leaves
behind for every combination of collaborator outcomes.

Modules:

- `Wrappers`: `Option` and `Outcome` (pass, or fail with an error).
- `OrderedMaps`: a JavaScript `Map` as a sequence of entries.
- `Naming`: the decimal names `bootstrap-i` and `test-agent-i`, plus the ports `14221 + i` and `14230 + i` and the node metadata.
- `Network`: key pairs, peer-node handles, the call record and the errors thrown.
- `MessagePlan`: the order in which the nested send loop visits (sender, receiver) pairs.
- `Results`: `TestResult`, `TestSummary` and the tallies a summary is made of.
- `Provisioning`: the calls each provisioning step makes, and the contents of `agents` after `createAgents`.
- `Harness`: the `TestRunner` class.

Two facts about the code that the model keeps as written:

- `cleanup()` is fail-fast: the first `stop()` that throws ends it (test/p2p/TestRunner.ts:248-256). Every later node then stays running and nothing more is cleared. If that node is a bootstrap node, `agents` has already been cleared.
- Nothing orders `endTime` after `startTime`. Both are clock readings, and no contract relates them.

## Model

| member | source | states |
|---|---|---|
| Naming.NatToString | test/p2p/TestRunner.ts:108 | the rendering of an index in a template literal is at least one character long and made of decimal digits only |
| Naming.NatToStringInjective | test/p2p/TestRunner.ts:108 | two indices render to the same decimal string exactly when they are equal |
| Naming.BootstrapNamesDistinct | test/p2p/TestRunner.ts:108 | `bootstrap-i` and `bootstrap-j` coincide exactly when `i == j` |
| Naming.AgentNamesDistinct | test/p2p/TestRunner.ts:150 | `test-agent-i` and `test-agent-j` coincide exactly when `i == j` |
| Naming.BootstrapAndAgentNamesDiffer | test/p2p/TestRunner.ts:108-150 | no bootstrap name is ever an agent name |
| Naming.BootstrapPort | test/p2p/TestRunner.ts:100-102 | definition `14221 + i`; its contract only bounds it below by 14221 |
| Naming.AgentPort | test/p2p/TestRunner.ts:122-124 | definition `14230 + i`; its contract only bounds it below by 14230 |
| Naming.BootstrapName | test/p2p/TestRunner.ts:108 | definition `bootstrap-${i}`, no contract; `BootstrapNamesDistinct` is proved about it |
| Naming.AgentName | test/p2p/TestRunner.ts:150 | definition `test-agent-${i}`, no contract; `AgentNamesDistinct` is proved about it |
| Naming.AgentCapabilities | test/p2p/TestRunner.ts:89-93 | definition of the three capability topics, no contract |
| Naming.AgentMetadata | test/p2p/TestRunner.ts:152-156 | definition of agent `i`'s metadata (creator label, no token address, the capabilities), no contract |
| Naming.PortRangesOverlap | test/p2p/TestRunner.ts:100-124 | a bootstrap node and an agent share a port exactly when there are at least ten bootstrap nodes and at least one agent |
| OrderedMaps.Values | test/p2p/TestRunner.ts:234 | definition of `Map.prototype.values()` in insertion order, no contract |
| OrderedMaps.Set | test/p2p/TestRunner.ts:176 | definition of `Map.prototype.set`, no contract; `SetLookup`, `SetKeys` and `SetUnique` are proved about it |
| OrderedMaps.Get | test/p2p/TestRunner.ts:38-40 | `get(k)` finds a value exactly when `k` is a key, and that value sits in an entry with key `k` |
| OrderedMaps.SetLookup | test/p2p/TestRunner.ts:176 | after `set(k, v)`, `get(k)` is `v` and every other key reads as before |
| OrderedMaps.SetKeys | test/p2p/TestRunner.ts:176 | `set` keeps the key order, appending `k` only when it is new |
| OrderedMaps.SetUnique | test/p2p/TestRunner.ts:176 | `set` never duplicates a key |
| MessagePlan.Row | test/p2p/TestRunner.ts:194-195 | definition of the inner loop's pairs for one sender, skipping the receiver with the sender's name; no contract |
| MessagePlan.Plan | test/p2p/TestRunner.ts:193-195 | definition of the nested loop's pairs, sender by sender; no contract |
| MessagePlan.AllPairs | test/p2p/TestRunner.ts:193-195 | definition of the pairs of the full nested loop over `agents`; no contract |
| MessagePlan.Content | test/p2p/TestRunner.ts:197 | definition of the message text `Test message from <from> to <to>`, no contract |
| MessagePlan.RowLength | test/p2p/TestRunner.ts:194-195 | with distinct names, a sender's row has `n - 1` pairs when the sender is among the `n` receivers and `n` otherwise; `RowMembers` says which receivers are visited |
| MessagePlan.PlanLength | test/p2p/TestRunner.ts:193-201 | the nested loop over senders that are all agents visits (number of senders) * `(n - 1)` pairs |
| MessagePlan.AllPairsLength | test/p2p/TestRunner.ts:193-201 | over `n` agents with distinct names the nested loop visits `n*(n-1)` pairs, the count the test expects, so none for `n <= 1` |
| MessagePlan.RowMembers | test/p2p/TestRunner.ts:194-195 | a pair is in a sender's row exactly when it starts at that sender and ends at a receiver with another name |
| MessagePlan.PlanMembers | test/p2p/TestRunner.ts:193-195 | a pair is visited exactly when its sender is iterated, its receiver is an agent and their names differ |
| MessagePlan.AllPairsMembers | test/p2p/TestRunner.ts:193-195 | a pair is visited exactly when both ends are agents with different names |
| MessagePlan.RowDistinct | test/p2p/TestRunner.ts:194-195 | a sender's inner loop visits no pair twice |
| MessagePlan.PlanDistinct | test/p2p/TestRunner.ts:193-195 | the nested loop visits no pair twice |
| MessagePlan.AllPairsDistinct | test/p2p/TestRunner.ts:193-201 | no ordered pair is visited twice; with `AllPairsMembers`, each pair of different agents is visited exactly once |
| MessagePlan.RowInPlan | test/p2p/TestRunner.ts:193-201 | sender `i`'s row follows, in the full visiting order, the rows of the senders before it |
| MessagePlan.SentBeforeAbort | test/p2p/TestRunner.ts:193-201 | when the send phase stops inside sender `i`'s row, the completed sends are a prefix of the full visiting order |
| MessagePlan.SentAfterRow | test/p2p/TestRunner.ts:193-201 | completing sender `i`'s row extends the completed sends by exactly that row |
| Results.PassedCount | test/p2p/TestRunner.ts:235-236 | definition of the count of successful results; its contract only bounds it by the number of results |
| Results.FailedCount | test/p2p/TestRunner.ts:237-238 | definition of the count of failed results; its contract only bounds it by the number of results |
| Results.TotalDuration | test/p2p/TestRunner.ts:240 | definition of the sum of `endTime - startTime` over the results, no contract |
| Results.PassedPlusFailed | test/p2p/TestRunner.ts:234-239 | every result is counted as passed or as failed, never both |
| Results.TalliesAppend | test/p2p/TestRunner.ts:234-241 | the passed, failed and duration tallies are additive over a concatenation of results |
| Results.RecordResult | test/p2p/TestRunner.ts:221 | storing a result under a name changes the passed, failed and duration tallies by the new result minus the one it replaces, if any |
| Provisioning.ProvisionCalls | test/p2p/TestRunner.ts:135-175 | definition of the calls one agent's provisioning makes, up to the registration or the start; no contract |
| Provisioning.RecordAgents | test/p2p/TestRunner.ts:176 | definition of `agents.set("test-agent-j", node j)` for each `j` in turn, no contract |
| Provisioning.FundingOnlyAtZero | test/p2p/TestRunner.ts:135-144 | provisioning transfers funds exactly when the balance read was zero, and then only `10^15` wei |
| Provisioning.ProvisionOrder | test/p2p/TestRunner.ts:162-175 | a provisioned agent's calls begin with the balance query and end with registration, then the listener, then the start on `14230 + i` |
| Provisioning.RecordAgentsLookup | test/p2p/TestRunner.ts:176 | after creating agents, `test-agent-j` maps to node `j` and every other key reads as before |
| Provisioning.RecordAgentsUnique | test/p2p/TestRunner.ts:176 | recording agents keeps the map's keys unique |
| Provisioning.RecordAgentsFromEmpty | test/p2p/TestRunner.ts:121-178 | from an empty map, recording `n` agents gives exactly `n` entries with distinct names `test-agent-0 .. test-agent-(n-1)` in creation order |
| Provisioning.ProvisionedStep | test/p2p/TestRunner.ts:123-178 | one more fully provisioned agent extends the provisioned prefix |
| Network.PeerNode.Address | test/p2p/TestRunner.ts:198 | definition of `getAddress()`: the node's key pair, no contract |
| Harness.TestRunner.constructor | test/p2p/TestRunner.ts:37-49 | every collection starts empty and the registry address, RPC URL and funder key are kept |
| Network.PeerNode.constructor | test/p2p/TestRunner.ts:148-159 | a node handle keeps the key, name, version, metadata, registry address and RPC URL it is built with |
| Harness.TestRunner.QueryBalance | test/p2p/TestRunner.ts:135 | the balance query is recorded with its answer, or as failed |
| Harness.TestRunner.Transfer | test/p2p/TestRunner.ts:69-72 | the transfer is recorded with its recipient, amount and outcome |
| Harness.TestRunner.AwaitReceipt | test/p2p/TestRunner.ts:79 | the wait for the receipt is recorded with its outcome |
| Harness.TestRunner.Register | test/p2p/TestRunner.ts:162 | the registration is recorded with its outcome |
| Harness.TestRunner.Listen | test/p2p/TestRunner.ts:166-173 | attaching the listener is recorded |
| Harness.TestRunner.StartNode | test/p2p/TestRunner.ts:115 | the start is recorded with its port and outcome |
| Harness.TestRunner.StopNode | test/p2p/TestRunner.ts:249 | the stop is recorded with its outcome |
| Harness.TestRunner.HandleMessage | test/p2p/TestRunner.ts:166-173 | one `message` event appends exactly one log entry, carrying the event's ids, its content and the clock reading, and changes nothing else |
| Harness.TestRunner.Send | test/p2p/TestRunner.ts:198 | one send call is recorded with its outcome; deliveries meanwhile only append to the message log |
| Harness.TestRunner.Settle | test/p2p/TestRunner.ts:204 | the 5000 ms wait is recorded; deliveries meanwhile only append to the message log |
| Harness.TestRunner.FundAgent | test/p2p/TestRunner.ts:64-87 | sends exactly `10^15` wei, waits for the receipt only if the transfer was accepted, and reports success only when both succeeded, never throwing |
| Harness.TestRunner.StartBootstrapNodes | test/p2p/TestRunner.ts:99-119 | node `i` is a fresh node named `bootstrap-i` with empty metadata, started on `14221 + i`, and appended only after its start succeeds; a failed start ends the call with nodes `0..i-1` recorded and the failed node not recorded |
| Harness.TestRunner.ProvisionAgent | test/p2p/TestRunner.ts:123-175 | one agent: balance query, funding only at zero, registration, listener, start, each failure ending the step with exactly the calls made so far and the error it throws |
| Harness.TestRunner.CreateAgents | test/p2p/TestRunner.ts:121-178 | agents `0..i-1` are fully provisioned and recorded under `test-agent-j` in order; on a failure at agent `i` the call stops with agent `i` not recorded and its calls ending at the one that threw |
| Harness.TestRunner.SendRow | test/p2p/TestRunner.ts:194-200 | sends to each other receiver in insertion order with content `Test message from <from> to <to>`, counting completed sends and stopping at the first that throws |
| Harness.TestRunner.SendAll | test/p2p/TestRunner.ts:193-201 | the send calls follow the all-pairs order exactly; `messagesSent` is the number completed, all of them when none throws |
| Harness.TestRunner.RunMessageTest | test/p2p/TestRunner.ts:181-223 | error present exactly when failed; on a send failure the completed count is kept and nothing received; otherwise all `n*(n-1)` sends are made and counted, the settle wait follows them, `messagesReceived` is the log length and success holds exactly when it equals `n*(n-1)`; the result is stored under `message-test` |
| Harness.TestRunner.GenerateSummary | test/p2p/TestRunner.ts:225-244 | total is the number of results, passed and failed count successes and failures and add up to the total, duration is the sum of `endTime - startTime`, and `results` is left unchanged |
| Harness.TestRunner.StopEach | test/p2p/TestRunner.ts:248-256 | stops the nodes in order until one throws; the calls are those successful stops, then the failed one |
| Harness.TestRunner.Cleanup | test/p2p/TestRunner.ts:246-262 | every agent is stopped before any bootstrap node; on completion all four collections are empty; a stop that throws ends the call with the later nodes unstopped and the collections not yet cleared left as they were |

## Left out

- `init()` (test/p2p/TestRunner.ts:51-62) and all logging: they only build ledger clients and write log lines.
- The ledger and peer-network calls are boundary methods whose outcome is arbitrary: `getBalance`, `sendTransaction`, `waitForTransactionReceipt`, `registerWithContract`, `start`, `stop` and `sendMessage`. Their effects on the outside world are not modelled.
- Private-key generation and `privateKeyToAccount`: a key is a freshly allocated object and its address is that object. Cryptography is not modelled.
- `EventEmitter`, `async` scheduling and the timer are not modelled. Listener deliveries are arbitrary appends to `messageLog`, and they happen only while a send or the settle delay is awaited. `HandleMessage` is the callback itself.
- `Date.now()`: clock readings are parameters (`now`, `startTime`, `endTime`).
- Error message text: errors are datatype values carrying what the message would mention.
- `TestSummary.results` is modelled as the value of `results` at the time of the call. The source shares the live map, so later changes to `results` would show through; that aliasing is not modelled.
- `startBootstrapNodes(count)` and `createAgents(count)` with a non-integer `count`: the model takes an integer. In the source the loop runs while `i < count`, so `count = 2.5` makes three nodes; the model does not capture this. A negative count makes no nodes.
- Harness.TestRunner.CreateAgents: does not state that the recorded nodes are freshly allocated. `ProvisionAgent` states it for each node, but the loop does not carry it.
- Harness.TestRunner.RunMessageTest: says nothing about which deliveries reach the log, because delivery is asynchronous and outside the harness. Only the count is compared, as in the source.
