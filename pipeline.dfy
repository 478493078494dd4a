/** The orchestration of cmd/scraper/main.go, run stage after stage: the
    producer offers the loaded products in order, a worker turns each into a
    result, the result processor routes every result into the ledger, and
    the ledger writes its two sinks. Goroutines, channels and the wait group
    are not modelled; each stage's view of the cancellation is a cut-off
    index. */
module Pipeline {
  import opened Common
  import opened Models
  import opened Storage
  import opened Scraper
  import opened Utils

  /** The URL the result processor records for every failure: a result does
      not carry its product's link. */
  const PlaceholderUrl := "N/A - URL not in ProductResult"

  /** The successful results of a stream, in order. */
  function Successes(rs: seq<ProductResult>): (ok: seq<ProductResult>)
    ensures |ok| <= |rs|
  {
    if rs == [] then []
    else
      var prefix := Successes(rs[..|rs| - 1]);
      if rs[|rs| - 1].success then prefix + [rs[|rs| - 1]] else prefix
  }

  /** The number of failed results in a stream. */
  function FailedCount(rs: seq<ProductResult>): nat
  {
    if rs == [] then 0
    else FailedCount(rs[..|rs| - 1]) + (if rs[|rs| - 1].success then 0 else 1)
  }

  /** The number of failed results for `id` in a stream. */
  function FailuresOf(rs: seq<ProductResult>, id: string): nat
  {
    if rs == [] then 0
    else FailuresOf(rs[..|rs| - 1], id) + (if !rs[|rs| - 1].success && rs[|rs| - 1].id == id then 1 else 0)
  }

  /** The failure list after the processor has routed every failed result
      of `rs`, in order, with the placeholder URL. */
  function RecordFailures(fs: seq<FailedUrl>, rs: seq<ProductResult>): seq<FailedUrl>
  {
    if rs == [] then fs
    else
      var prefix := RecordFailures(fs, rs[..|rs| - 1]);
      var r := rs[|rs| - 1];
      if r.success then prefix else RecordFailure(prefix, r.id, PlaceholderUrl, r.error)
  }

  /** Every result goes to exactly one of the two collections. */
  lemma {:induction false} RoutingIsExclusive(rs: seq<ProductResult>)
    ensures |Successes(rs)| + FailedCount(rs) == |rs|
  {
    if rs != [] {
      RoutingIsExclusive(rs[..|rs| - 1]);
    }
  }

  /** Routing the failures adds exactly one attempt per failed result. */
  lemma {:induction false} RecordFailuresAttempts(fs: seq<FailedUrl>, rs: seq<ProductResult>)
    ensures TotalAttempts(RecordFailures(fs, rs)) == TotalAttempts(fs) + FailedCount(rs)
  {
    if rs != [] {
      RecordFailuresAttempts(fs, rs[..|rs| - 1]);
      var r := rs[|rs| - 1];
      if !r.success {
        RecordFailureAddsOneAttempt(RecordFailures(fs, rs[..|rs| - 1]), r.id, PlaceholderUrl, r.error);
      }
    }
  }

  /** Routing keeps the ledger's invariant. */
  lemma {:induction false} RecordFailuresWellFormed(fs: seq<FailedUrl>, rs: seq<ProductResult>)
    requires WellFormed(fs)
    ensures WellFormed(RecordFailures(fs, rs))
  {
    if rs != [] {
      RecordFailuresWellFormed(fs, rs[..|rs| - 1]);
    }
  }

  /** Because the URL is a constant, repeated failures of one id coalesce:
      its record's attempts grow by the number of failed results for it, and
      no other key's record changes. */
  lemma {:induction false} FailuresCoalesce(fs: seq<FailedUrl>, rs: seq<ProductResult>, id: string)
    requires WellFormed(fs)
    ensures AttemptsOf(RecordFailures(fs, rs), id, PlaceholderUrl) == AttemptsOf(fs, id, PlaceholderUrl) + FailuresOf(rs, id)
  {
    if rs != [] {
      var rs' := rs[..|rs| - 1];
      FailuresCoalesce(fs, rs', id);
      RecordFailuresWellFormed(fs, rs');
      var r := rs[|rs| - 1];
      if !r.success {
        RecordFailureCounts(RecordFailures(fs, rs'), r.id, PlaceholderUrl, r.error, id, PlaceholderUrl);
      }
    }
  }

  /** Starting from an empty ledger, every failure record carries the
      placeholder URL, so there is one record per failed id. */
  lemma {:induction false} OnlyPlaceholderUrls(rs: seq<ProductResult>)
    ensures forall f :: f in RecordFailures([], rs) ==> f.url == PlaceholderUrl
  {
    if rs != [] {
      var rs' := rs[..|rs| - 1];
      OnlyPlaceholderUrls(rs');
      var r := rs[|rs| - 1];
      if !r.success {
        var prev := RecordFailures([], rs');
        var next := RecordFailure(prev, r.id, PlaceholderUrl, r.error);
        forall f | f in next ensures f.url == PlaceholderUrl {
          var j :| 0 <= j < |next| && next[j] == f;
          if j < |prev| && !SameKey(prev[j], r.id, PlaceholderUrl) {
            assert f == prev[j];
          }
        }
      }
    }
  }

  /** processResults: take results in arrival order until the processor
      sees the cancellation before result `stopAt` or the stream closes;
      a success goes to SaveResult unchanged, a failure to SaveFailedURL
      with its id, the placeholder URL and its error. */
  method ProcessResults(storage: Manager, stream: seq<ProductResult>, stopAt: nat)
    modifies storage
    ensures storage.allResults == old(storage.allResults) + Successes(stream[..Min(stopAt, |stream|)])
    ensures storage.failedUrls == RecordFailures(old(storage.failedUrls), stream[..Min(stopAt, |stream|)])
    ensures old(storage.Valid()) ==> storage.Valid()
  {
    var i := 0;
    while true
      invariant 0 <= i <= Min(stopAt, |stream|)
      invariant storage.allResults == old(storage.allResults) + Successes(stream[..i])
      invariant storage.failedUrls == RecordFailures(old(storage.failedUrls), stream[..i])
      invariant old(storage.Valid()) ==> storage.Valid()
      decreases |stream| - i
    {
      if i == stopAt || i == |stream| {
        // Cancellation seen, or the result stream closed.
        break;
      }
      var result := stream[i];
      assert stream[..i + 1][..i] == stream[..i];
      if result.success {
        storage.SaveResult(result);
      } else {
        storage.SaveFailedUrl(result.id, PlaceholderUrl, result.error);
      }
      i := i + 1;
    }
  }

  /** The producer: offer `products[0..]` in order until it sees the
      cancellation before product `stopAt`. `closes` only counts the runs
      of the deferred `close` of the product stream; what that close does,
      ending the worker's loop after the last offered product, is modelled
      by handing `sent` to the worker. */
  method Produce(products: seq<Product>, stopAt: nat) returns (sent: seq<Product>, closes: nat)
    ensures sent == products[..Min(stopAt, |products|)]
    ensures closes == 1
  {
    sent := [];
    closes := 0;
    for i := 0 to |products|
      invariant sent == products[..i]
      invariant i <= stopAt
    {
      if i == stopAt {
        // Cancellation seen: stop feeding.
        closes := closes + 1;
        return;
      }
      sent := sent + [products[i]];
    }
    closes := closes + 1;
  }

  /** Where each stage first sees the cancellation: the producer before
      offering product `produceStop`, the worker before taking product
      `workStop`, the processor before recording result `recordStop`, and
      the scrape of product `i` at the start of attempt `attemptStop(i)`. */
  datatype Schedule = Schedule(produceStop: nat, workStop: nat, recordStop: nat, attemptStop: nat -> nat)

  /** The results the processor records in a run over `products`. */
  function Recorded(products: seq<Product>, maxRetries: int, sched: Schedule,
                    fetch: (nat, nat) -> FetchOutcome): (rs: seq<ProductResult>)
    ensures |rs| <= |products|
    ensures |rs| == Min(sched.recordStop, Min(sched.workStop, Min(sched.produceStop, |products|)))
    ensures forall i :: 0 <= i < |rs| ==> rs[i].id == products[i].id
  {
    var sent := products[..Min(sched.produceStop, |products|)];
    var stream := WorkerResults(sent, Min(sched.workStop, |sent|), maxRetries, sched.attemptStop, fetch);
    stream[..Min(sched.recordStop, |stream|)]
  }

  /** How a run ends: the load failed (fatal), or the pipeline drained and
      the ledger wrote its sinks; a failed write is reported, not fatal. */
  datatype RunOutcome =
    | LoadFailed(message: string)
    | Finished(outputError: Option<string>, failedSink: Sink<FailedUrl>, finalSink: Sink<ProductResult>)

  /** main, stage after stage. A load error ends the run before anything
      starts; otherwise the final output is generated once, after every
      stage is done, and its error does not end the run. */
  method Run(rows: seq<seq<string>>, maxRetries: int, sched: Schedule, fetch: (nat, nat) -> FetchOutcome,
             failedOutcome: WriteOutcome, finalOutcome: WriteOutcome)
    returns (outcome: RunOutcome)
    ensures match Load(rows)
      case Err(message) => outcome == LoadFailed(message)
      case Ok(products) =>
        var recorded := Recorded(products, maxRetries, sched, fetch);
        && outcome.Finished?
        && (outcome.outputError.None? <==> finalOutcome.Written?)
        && (finalOutcome.Written? ==> outcome.finalSink == Holds(Successes(recorded)))
        && (failedOutcome.Written? ==> outcome.failedSink == Holds(RecordFailures([], recorded)))
        && (failedOutcome.Written? ==> WellFormed(outcome.failedSink.records))
  {
    var storage := new Manager();
    var loaded := LoadProductsFromRows(rows);
    if loaded.Err? {
      return LoadFailed(loaded.message);
    }
    var products := loaded.value;
    var sent, _ := Produce(products, sched.produceStop);
    var stream := Worker(sent, sched.workStop, maxRetries, sched.attemptStop, fetch);
    ProcessResults(storage, stream, sched.recordStop);
    ghost var recorded := stream[..Min(sched.recordStop, |stream|)];
    assert recorded == Recorded(products, maxRetries, sched, fetch);
    assert storage.allResults == Successes(recorded);
    assert storage.failedUrls == RecordFailures([], recorded);
    assert WellFormed(storage.failedUrls);
    var err, failedSink, finalSink := storage.GenerateFinalOutput(failedOutcome, finalOutcome);
    outcome := Finished(err, failedSink, finalSink);
  }

  /** No stage sees a cancellation before the end of the input. */
  predicate Uncanceled(products: seq<Product>, maxRetries: int, sched: Schedule)
  {
    && sched.produceStop >= |products| && sched.workStop >= |products| && sched.recordStop >= |products|
    && forall i :: 0 <= i < |products| ==> sched.attemptStop(i) >= maxRetries
  }

  /** The number of products with id `id`. */
  function Occurrences(products: seq<Product>, id: string): nat
  {
    if products == [] then 0
    else Occurrences(products[..|products| - 1], id) + (if products[|products| - 1].id == id then 1 else 0)
  }

  /** With a fetch that always succeeds and no cancellation, every product's
      result succeeds. */
  lemma {:induction false} WorkerAllSucceed(received: seq<Product>, n: nat, maxRetries: int,
                                            attemptStop: nat -> nat, fetch: (nat, nat) -> FetchOutcome)
    requires n <= |received| && maxRetries >= 1
    requires forall i :: 0 <= i < n ==> attemptStop(i) >= 1
    requires forall i, k :: fetch(i, k).Fetched?
    ensures Successes(WorkerResults(received, n, maxRetries, attemptStop, fetch))
      == WorkerResults(received, n, maxRetries, attemptStop, fetch)
  {
    if n > 0 {
      WorkerAllSucceed(received, n - 1, maxRetries, attemptStop, fetch);
      var rs := WorkerResults(received, n, maxRetries, attemptStop, fetch);
      AlwaysSucceedingFetchesOnce(maxRetries, received[n - 1].id, attemptStop(n - 1), ItemFetch(fetch, n - 1));
      assert rs[..n - 1] == WorkerResults(received, n - 1, maxRetries, attemptStop, fetch);
    }
  }

  /** With a fetch that always fails and no cancellation, every product's
      result fails, each failure counting once for its id. */
  lemma {:induction false} WorkerAllFail(received: seq<Product>, n: nat, maxRetries: int,
                                         attemptStop: nat -> nat, fetch: (nat, nat) -> FetchOutcome, id: string)
    requires n <= |received| && maxRetries >= 1
    requires forall i :: 0 <= i < n ==> attemptStop(i) >= maxRetries
    requires forall i, k :: fetch(i, k).FetchFailed?
    ensures var rs := WorkerResults(received, n, maxRetries, attemptStop, fetch);
      Successes(rs) == [] && FailuresOf(rs, id) == Occurrences(received[..n], id)
  {
    if n > 0 {
      WorkerAllFail(received, n - 1, maxRetries, attemptStop, fetch, id);
      var rs := WorkerResults(received, n, maxRetries, attemptStop, fetch);
      var f := ItemFetch(fetch, n - 1);
      AlwaysFailingUsesWholeBudget(maxRetries, received[n - 1].id, attemptStop(n - 1), f);
      assert rs[..n - 1] == WorkerResults(received, n - 1, maxRetries, attemptStop, fetch);
      assert received[..n][..n - 1] == received[..n - 1];
    }
  }

  /** A run whose fetches all succeed, uncanceled, records every product as
      a success and no failure. */
  lemma AllSucceedRun(products: seq<Product>, maxRetries: int, sched: Schedule, fetch: (nat, nat) -> FetchOutcome)
    requires maxRetries >= 1 && Uncanceled(products, maxRetries, sched)
    requires forall i, k :: fetch(i, k).Fetched?
    ensures var rs := Recorded(products, maxRetries, sched, fetch);
      |Successes(rs)| == |products| && RecordFailures([], rs) == []
  {
    var rs := Recorded(products, maxRetries, sched, fetch);
    assert products[..|products|] == products;
    WorkerAllSucceed(products, |products|, maxRetries, sched.attemptStop, fetch);
    assert rs == WorkerResults(products, |products|, maxRetries, sched.attemptStop, fetch);
    RoutingIsExclusive(rs);
    RecordFailuresAttempts([], rs);
    assert FailedCount(rs) == 0;
    NoFailuresNoRecords(rs);
  }

  /** A stream without failures leaves the failure list empty. */
  lemma {:induction false} NoFailuresNoRecords(rs: seq<ProductResult>)
    requires FailedCount(rs) == 0
    ensures RecordFailures([], rs) == []
  {
    if rs != [] {
      NoFailuresNoRecords(rs[..|rs| - 1]);
    }
  }

  /** A run whose fetches all fail, uncanceled, records no success; every
      id's single record counts one attempt per product with that id (one
      failed result each), not one per retry. */
  lemma AllFailRun(products: seq<Product>, maxRetries: int, sched: Schedule, fetch: (nat, nat) -> FetchOutcome, id: string)
    requires maxRetries >= 1 && Uncanceled(products, maxRetries, sched)
    requires forall i, k :: fetch(i, k).FetchFailed?
    ensures var rs := Recorded(products, maxRetries, sched, fetch);
      Successes(rs) == [] && AttemptsOf(RecordFailures([], rs), id, PlaceholderUrl) == Occurrences(products, id)
  {
    var rs := Recorded(products, maxRetries, sched, fetch);
    assert products[..|products|] == products;
    WorkerAllFail(products, |products|, maxRetries, sched.attemptStop, fetch, id);
    assert rs == WorkerResults(products, |products|, maxRetries, sched.attemptStop, fetch);
    FailuresCoalesce([], rs, id);
  }

  /** A cancellation seen before the first product is offered leaves both
      outputs empty. */
  lemma CanceledBeforeDispatch(products: seq<Product>, maxRetries: int, sched: Schedule, fetch: (nat, nat) -> FetchOutcome)
    requires sched.produceStop == 0
    ensures Successes(Recorded(products, maxRetries, sched, fetch)) == []
    ensures RecordFailures([], Recorded(products, maxRetries, sched, fetch)) == []
  {
  }
}
