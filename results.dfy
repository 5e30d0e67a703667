/** Test outcomes and the summary computed over them. */
module Results {
  import opened Wrappers
  import opened OrderedMaps
  import opened Network

  /** The key the message test stores its result under. */
  const MessageTestName: string := "message-test"

  /** The outcome of one named test run; times are clock readings in
      milliseconds. */
  datatype TestResult = TestResult(
    success: bool,
    error: Option<Error>,
    messagesSent: nat,
    messagesReceived: nat,
    startTime: int,
    endTime: int)
  {
    /** An error is attached exactly when the test failed. */
    predicate Consistent()
    {
      error.Some? <==> !success
    }
  }

  /** What `generateSummary` returns; `results` is the map it summarises. */
  datatype TestSummary = TestSummary(
    totalTests: nat,
    passedTests: nat,
    failedTests: nat,
    results: seq<Entry<TestResult>>,
    duration: int)

  /** The number of successful results. */
  function PassedCount(rs: seq<Entry<TestResult>>): (n: nat)
    ensures n <= |rs|
  {
    if rs == [] then 0
    else PassedCount(rs[..|rs| - 1]) + (if rs[|rs| - 1].value.success then 1 else 0)
  }

  /** The number of failed results. */
  function FailedCount(rs: seq<Entry<TestResult>>): (n: nat)
    ensures n <= |rs|
  {
    if rs == [] then 0
    else FailedCount(rs[..|rs| - 1]) + (if rs[|rs| - 1].value.success then 0 else 1)
  }

  /** The sum of `endTime - startTime` over the results. */
  function TotalDuration(rs: seq<Entry<TestResult>>): int
  {
    if rs == [] then 0
    else TotalDuration(rs[..|rs| - 1]) + (rs[|rs| - 1].value.endTime - rs[|rs| - 1].value.startTime)
  }

  /** Every result is either passed or failed. */
  lemma {:induction false} PassedPlusFailed(rs: seq<Entry<TestResult>>)
    ensures PassedCount(rs) + FailedCount(rs) == |rs|
  {
    if rs != [] {
      PassedPlusFailed(rs[..|rs| - 1]);
    }
  }

  /** All three tallies add up over a concatenation. */
  lemma {:induction false} TalliesAppend(a: seq<Entry<TestResult>>, b: seq<Entry<TestResult>>)
    ensures PassedCount(a + b) == PassedCount(a) + PassedCount(b)
    ensures FailedCount(a + b) == FailedCount(a) + FailedCount(b)
    ensures TotalDuration(a + b) == TotalDuration(a) + TotalDuration(b)
    decreases |b|
  {
    if b == [] {
      assert a + b == a;
    } else {
      var n := |b| - 1;
      assert (a + b)[..|a + b| - 1] == a + b[..n];
      TalliesAppend(a, b[..n]);
    }
  }

  lemma TalliesOne(e: Entry<TestResult>)
    ensures PassedCount([e]) == (if e.value.success then 1 else 0)
    ensures FailedCount([e]) == (if e.value.success then 0 else 1)
    ensures TotalDuration([e]) == e.value.endTime - e.value.startTime
  {
    assert [e][..0] == [];
  }

  /** The tallies of `a + [x] + b`. */
  lemma TalliesSplice(a: seq<Entry<TestResult>>, x: Entry<TestResult>, b: seq<Entry<TestResult>>)
    ensures PassedCount(a + [x] + b) == PassedCount(a) + PassedCount([x]) + PassedCount(b)
    ensures FailedCount(a + [x] + b) == FailedCount(a) + FailedCount([x]) + FailedCount(b)
    ensures TotalDuration(a + [x] + b) == TotalDuration(a) + TotalDuration([x]) + TotalDuration(b)
  {
    TalliesAppend(a, [x]);
    TalliesAppend(a + [x], b);
  }

  /** Storing `r` under `k` replaces the tally of the result it overwrites
      (if any) by the tally of `r`, and leaves the rest of the summary alone. */
  lemma RecordResult(rs: seq<Entry<TestResult>>, k: string, r: TestResult)
    ensures var rs', prev := Set(rs, k, r), Get(rs, k);
      && PassedCount(rs') == PassedCount(rs) + (if r.success then 1 else 0)
                             - (if prev.Some? && prev.value.success then 1 else 0)
      && FailedCount(rs') == FailedCount(rs) + (if r.success then 0 else 1)
                             - (if prev.Some? && !prev.value.success then 1 else 0)
      && TotalDuration(rs') == TotalDuration(rs) + (r.endTime - r.startTime)
                             - (if prev.Some? then prev.value.endTime - prev.value.startTime else 0)
  {
    var e := Entry(k, r);
    TalliesOne(e);
    if k in Keys(rs) {
      var i := IndexOf(rs, k);
      var a, x, b := rs[..i], rs[i], rs[i + 1..];
      assert rs == a + [x] + b;
      assert Set(rs, k, r) == a + [e] + b;
      assert Get(rs, k) == Some(x.value);
      TalliesOne(x);
      TalliesSplice(a, x, b);
      TalliesSplice(a, e, b);
    } else {
      assert Set(rs, k, r) == rs + [e];
      TalliesAppend(rs, [e]);
    }
  }
}
