/** The send phase of the message test: every agent sends one message to every
    other agent, senders in insertion order and, for each sender, receivers in
    insertion order, skipping the receiver whose name is the sender's. */
module MessagePlan {
  import opened OrderedMaps
  import opened Network

  /** One (sender, receiver) pair of map entries. */
  datatype Pair<V> = Pair(from: Entry<V>, to: Entry<V>)

  /** The inner loop for sender `s` over the receivers `ts`. */
  function Row<V>(s: Entry<V>, ts: seq<Entry<V>>): seq<Pair<V>>
    decreases |ts|
  {
    if ts == [] then []
    else Row(s, ts[..|ts| - 1])
         + (if ts[|ts| - 1].key == s.key then [] else [Pair(s, ts[|ts| - 1])])
  }

  /** The outer loop over the senders `ss`, each against all of `all`. */
  function Plan<V>(ss: seq<Entry<V>>, all: seq<Entry<V>>): seq<Pair<V>>
    decreases |ss|
  {
    if ss == [] then [] else Plan(ss[..|ss| - 1], all) + Row(ss[|ss| - 1], all)
  }

  /** Every pair the nested loop over `agents` visits, in visiting order. */
  function AllPairs<V>(agents: seq<Entry<V>>): seq<Pair<V>>
  {
    Plan(agents, agents)
  }

  /** `Test message from ${fromName} to ${toName}` */
  function Content(fromName: string, toName: string): string
  {
    "Test message from " + fromName + " to " + toName
  }

  /** The `sendMessage` call the loop makes for pair `p`. */
  function SendCall(p: Pair<PeerNode>, ok: bool): Call
  {
    SendMessage(p.from.value, p.to.value.Address(), Content(p.from.key, p.to.key), ok)
  }

  /** The calls of a run of sends that all succeeded. */
  function SendCalls(ps: seq<Pair<PeerNode>>): seq<Call>
  {
    seq(|ps|, k requires 0 <= k < |ps| => SendCall(ps[k], true))
  }

  lemma SendCallsAppend(a: seq<Pair<PeerNode>>, b: seq<Pair<PeerNode>>)
    ensures SendCalls(a + b) == SendCalls(a) + SendCalls(b)
  {
    var l, r := SendCalls(a + b), SendCalls(a) + SendCalls(b);
    assert |l| == |r|;
    forall k | 0 <= k < |l| ensures l[k] == r[k] {
      if k < |a| { assert (a + b)[k] == a[k]; } else { assert (a + b)[k] == b[k - |a|]; }
    }
  }

  lemma SendCallsSnoc(a: seq<Pair<PeerNode>>, p: Pair<PeerNode>)
    ensures SendCalls(a + [p]) == SendCalls(a) + [SendCall(p, true)]
  {
    SendCallsAppend(a, [p]);
  }

  ghost predicate Distinct<T>(xs: seq<T>)
  {
    forall i, j :: 0 <= i < j < |xs| ==> xs[i] != xs[j]
  }

  // ---- one step of each loop

  lemma RowStep<V>(s: Entry<V>, ts: seq<Entry<V>>, j: nat)
    requires j < |ts|
    ensures Row(s, ts[..j + 1])
         == Row(s, ts[..j]) + (if ts[j].key == s.key then [] else [Pair(s, ts[j])])
  {
    assert ts[..j + 1][..j] == ts[..j];
  }

  lemma PlanStep<V>(ss: seq<Entry<V>>, all: seq<Entry<V>>, i: nat)
    requires i < |ss|
    ensures Plan(ss[..i + 1], all) == Plan(ss[..i], all) + Row(ss[i], all)
  {
    assert ss[..i + 1][..i] == ss[..i];
  }

  // ---- what has been sent so far is where the plan starts

  lemma {:induction false} RowPrefix<V>(s: Entry<V>, ts: seq<Entry<V>>, j: nat)
    requires j <= |ts|
    ensures Row(s, ts[..j]) <= Row(s, ts)
    decreases |ts|
  {
    if j < |ts| {
      var n := |ts| - 1;
      assert ts[..n][..j] == ts[..j];
      RowPrefix(s, ts[..n], j);
    } else {
      assert ts[..j] == ts;
    }
  }

  lemma {:induction false} PlanPrefix<V>(ss: seq<Entry<V>>, all: seq<Entry<V>>, i: nat)
    requires i <= |ss|
    ensures Plan(ss[..i], all) <= Plan(ss, all)
    decreases |ss|
  {
    if i < |ss| {
      var n := |ss| - 1;
      assert ss[..n][..i] == ss[..i];
      PlanPrefix(ss[..n], all, i);
    } else {
      assert ss[..i] == ss;
    }
  }

  /** When the inner loop stands at receiver `j`, named differently from the
      sender, the pairs of the row visited so far are followed in the row by
      `(s, ts[j])`. */
  lemma RowNext<V>(s: Entry<V>, ts: seq<Entry<V>>, j: nat)
    requires j < |ts| && ts[j].key != s.key
    ensures var done := Row(s, ts[..j]);
            |done| < |Row(s, ts)| && Row(s, ts)[..|done|] == done && Row(s, ts)[|done|] == Pair(s, ts[j])
  {
    RowStep(s, ts, j);
    RowPrefix(s, ts, j + 1);
  }

  /** The pairs of sender `i`'s row follow, in the full plan, those of the
      senders before it. */
  lemma RowInPlan<V>(agents: seq<Entry<V>>, i: nat, c: nat)
    requires i < |agents| && c < |Row(agents[i], agents)|
    ensures var done, row := Plan(agents[..i], agents), Row(agents[i], agents);
            && |done| + c < |AllPairs(agents)|
            && AllPairs(agents)[..|done| + c] == done + row[..c]
            && AllPairs(agents)[|done| + c] == row[c]
  {
    var done, row := Plan(agents[..i], agents), Row(agents[i], agents);
    PlanStep(agents, agents, i);
    PlanPrefix(agents, agents, i + 1);
    assert done + row <= AllPairs(agents);
    assert (done + row)[..|done| + c] == done + row[..c];
  }

  /** What the calls of a send phase that stops at pair `c` of sender `i`'s
      row amount to, in terms of the full plan. */
  lemma SentBeforeAbort(all: seq<Entry<PeerNode>>, i: nat, c: nat)
    requires i < |all| && c < |Row(all[i], all)|
    ensures var done, row := Plan(all[..i], all), Row(all[i], all);
            && |done| + c < |AllPairs(all)|
            && AllPairs(all)[|done| + c] == row[c]
            && SendCalls(AllPairs(all)[..|done| + c]) == SendCalls(done) + SendCalls(row[..c])
  {
    var done, row := Plan(all[..i], all), Row(all[i], all);
    RowInPlan(all, i, c);
    SendCallsAppend(done, row[..c]);
  }

  /** The calls of the rows of the first `i + 1` senders. */
  lemma SentAfterRow(all: seq<Entry<PeerNode>>, i: nat)
    requires i < |all|
    ensures var done, row := Plan(all[..i], all), Row(all[i], all);
            && |Plan(all[..i + 1], all)| == |done| + |row|
            && SendCalls(Plan(all[..i + 1], all)) == SendCalls(done) + SendCalls(row)
  {
    PlanStep(all, all, i);
    SendCallsAppend(Plan(all[..i], all), Row(all[i], all));
  }

  // ---- how many, and which, pairs there are

  lemma {:induction false} RowLength<V>(s: Entry<V>, ts: seq<Entry<V>>)
    requires UniqueKeys(ts)
    ensures |Row(s, ts)| == |ts| - (if s.key in Keys(ts) then 1 else 0)
    decreases |ts|
  {
    if ts != [] {
      var n := |ts| - 1;
      RowLength(s, ts[..n]);
      assert Keys(ts) == Keys(ts[..n]) + [ts[n].key];
      if ts[n].key == s.key {
        assert s.key !in Keys(ts[..n]);
      }
    }
  }

  lemma MulStep(n: nat, w: int)
    ensures (n + 1) * w == n * w + w
  {
  }

  /** The nested loop over `n` agents with distinct names visits `n*(n-1)` pairs. */
  lemma {:induction false} PlanLength<V>(ss: seq<Entry<V>>, all: seq<Entry<V>>)
    requires UniqueKeys(all)
    requires forall i :: 0 <= i < |ss| ==> ss[i].key in Keys(all)
    ensures |Plan(ss, all)| == |ss| * (|all| - 1)
    decreases |ss|
  {
    if ss != [] {
      var n := |ss| - 1;
      PlanLength(ss[..n], all);
      RowLength(ss[n], all);
      assert |Plan(ss, all)| == |Plan(ss[..n], all)| + |Row(ss[n], all)|;
      MulStep(n, |all| - 1);
    }
  }

  lemma AllPairsLength<V>(agents: seq<Entry<V>>)
    requires UniqueKeys(agents)
    ensures |AllPairs(agents)| == |agents| * (|agents| - 1)
  {
    forall i | 0 <= i < |agents| ensures agents[i].key in Keys(agents) {
      assert Keys(agents)[i] == agents[i].key;
    }
    PlanLength(agents, agents);
  }

  lemma {:induction false} RowMembers<V>(s: Entry<V>, ts: seq<Entry<V>>, p: Pair<V>)
    ensures p in Row(s, ts) <==> p.from == s && p.to in ts && p.to.key != s.key
    decreases |ts|
  {
    if ts != [] {
      var n := |ts| - 1;
      RowMembers(s, ts[..n], p);
      assert ts == ts[..n] + [ts[n]];
    }
  }

  lemma {:induction false} PlanMembers<V>(ss: seq<Entry<V>>, all: seq<Entry<V>>, p: Pair<V>)
    ensures p in Plan(ss, all) <==> p.from in ss && p.to in all && p.to.key != p.from.key
    decreases |ss|
  {
    if ss != [] {
      var n := |ss| - 1;
      PlanMembers(ss[..n], all, p);
      RowMembers(ss[n], all, p);
      assert ss == ss[..n] + [ss[n]];
    }
  }

  /** A pair is visited exactly when its sender and receiver are entries of the
      map with different names. */
  lemma AllPairsMembers<V>(agents: seq<Entry<V>>, p: Pair<V>)
    ensures p in AllPairs(agents) <==> p.from in agents && p.to in agents && p.from.key != p.to.key
  {
    PlanMembers(agents, agents, p);
  }

  lemma DistinctAppend<T>(a: seq<T>, b: seq<T>)
    requires Distinct(a) && Distinct(b)
    requires forall x :: x in a ==> x !in b
    ensures Distinct(a + b)
  {
    forall i, j | 0 <= i < j < |a + b| ensures (a + b)[i] != (a + b)[j] {
      if i < |a| && j >= |a| {
        assert (a + b)[i] in a && (a + b)[j] in b;
      }
    }
  }

  lemma {:induction false} RowDistinct<V>(s: Entry<V>, ts: seq<Entry<V>>)
    requires UniqueKeys(ts)
    ensures Distinct(Row(s, ts))
    decreases |ts|
  {
    if ts != [] {
      var n := |ts| - 1;
      RowDistinct(s, ts[..n]);
      var last := if ts[n].key == s.key then [] else [Pair(s, ts[n])];
      forall p | p in Row(s, ts[..n]) ensures p !in last {
        RowMembers(s, ts[..n], p);
      }
      DistinctAppend(Row(s, ts[..n]), last);
    }
  }

  lemma {:induction false} PlanDistinct<V>(ss: seq<Entry<V>>, all: seq<Entry<V>>)
    requires UniqueKeys(ss) && UniqueKeys(all)
    ensures Distinct(Plan(ss, all))
    decreases |ss|
  {
    if ss != [] {
      var n := |ss| - 1;
      PlanDistinct(ss[..n], all);
      RowDistinct(ss[n], all);
      forall p | p in Plan(ss[..n], all) ensures p !in Row(ss[n], all) {
        PlanMembers(ss[..n], all, p);
        RowMembers(ss[n], all, p);
      }
      DistinctAppend(Plan(ss[..n], all), Row(ss[n], all));
    }
  }

  /** No ordered pair is sent to twice. */
  lemma AllPairsDistinct<V>(agents: seq<Entry<V>>)
    requires UniqueKeys(agents)
    ensures Distinct(AllPairs(agents))
  {
    PlanDistinct(agents, agents);
  }
}
