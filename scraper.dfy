/** The per-product retry policy and the worker's per-product step
    (internal/scraper/scraper.go). The browser fetch is an oracle: the
    outcome of attempt `k` is `fetch(k)`. Cancellation is a cut-off: the
    context is first seen done at the start of attempt `cancelAt`, and, being
    a one-way gate, at every later attempt too. */
module Scraper {
  import opened Common
  import opened Models

  /** What one call of the browser fetch returns: the image URLs, or an
      error's message (which already includes the fetch's own check of the
      parent context). */
  datatype FetchOutcome = Fetched(images: seq<string>) | FetchFailed(message: string)

  /** A finished ScrapeProduct call: its result, how many fetches it made
      and how many retry delays it slept. */
  datatype ScrapeRun = ScrapeRun(result: ProductResult, fetches: nat, sleeps: nat)

  const CanceledMessage := "parent context canceled"
  const ExhaustedMessage := "failed after maximum retries"

  /** The number of attempts the `for attempt < MaxRetries` loop allows. */
  function Budget(maxRetries: int): nat
  {
    if maxRetries <= 0 then 0 else maxRetries
  }

  /** The first attempt in [from, limit) whose fetch succeeds. */
  function FirstFetched(fetch: nat -> FetchOutcome, from: nat, limit: nat): (r: Option<nat>)
    decreases limit - from
    ensures r.Some? ==> from <= r.value < limit && fetch(r.value).Fetched?
    ensures r.Some? ==> forall k :: from <= k < r.value ==> fetch(k).FetchFailed?
    ensures r.None? ==> forall k :: from <= k < limit ==> fetch(k).FetchFailed?
  {
    if from >= limit then None
    else if fetch(from).Fetched? then Some(from)
    else FirstFetched(fetch, from + 1, limit)
  }

  /** The retry policy: attempts run until the budget is spent, the
      cancellation is seen, or a fetch succeeds, whichever comes first.
      The result carries the product's id; it succeeds exactly when the last
      fetch made succeeded, with that fetch's images, every earlier fetch
      having failed; it makes at most `maxRetries` fetches and sleeps before
      every fetch but the first. A failure reports cancellation if the loop
      stopped early, else the last fetch's error, else the fixed message
      when no attempt was allowed. */
  function RetrySpec(maxRetries: int, id: string, cancelAt: nat, fetch: nat -> FetchOutcome): (run: ScrapeRun)
    ensures run.result.id == id
    ensures run.fetches <= Budget(maxRetries) && run.fetches <= cancelAt
    ensures run.sleeps == if run.fetches == 0 then 0 else run.fetches - 1
    ensures forall k :: 0 <= k < run.fetches - 1 ==> fetch(k).FetchFailed?
    ensures run.result.success <==> run.fetches > 0 && fetch(run.fetches - 1).Fetched?
    ensures run.result.success ==> run.result.images == fetch(run.fetches - 1).images && run.result.error == ""
    ensures !run.result.success ==> run.result.images == []
    ensures !run.result.success && run.fetches < Budget(maxRetries)
      ==> run.fetches == cancelAt && run.result.error == CanceledMessage
    ensures !run.result.success && 0 < run.fetches == Budget(maxRetries)
      ==> run.result.error == fetch(run.fetches - 1).message
    ensures Budget(maxRetries) == 0 ==> run.fetches == 0 && run.result.error == ExhaustedMessage
  {
    var window := Min(Budget(maxRetries), cancelAt);
    match FirstFetched(fetch, 0, window)
    case Some(k) =>
      ScrapeRun(ProductResult(id, fetch(k).images, true, ""), k + 1, k)
    case None =>
      var failed := ProductResult(id, [], false, "");
      if window < Budget(maxRetries) then
        ScrapeRun(failed.(error := CanceledMessage), window, if window == 0 then 0 else window - 1)
      else if window == 0 then
        ScrapeRun(failed.(error := ExhaustedMessage), 0, 0)
      else
        ScrapeRun(failed.(error := fetch(window - 1).message), window, window - 1)
  }

  /** ScrapeProduct: the counted retry loop with its early returns. */
  method ScrapeProduct(maxRetries: int, product: Product, cancelAt: nat, fetch: nat -> FetchOutcome)
    returns (run: ScrapeRun)
    ensures run == RetrySpec(maxRetries, product.id, cancelAt, fetch)
  {
    var result := ProductResult(product.id, [], false, "");
    var lastErr: Option<string> := None;
    var fetches, sleeps := 0, 0;
    var attempt := 0;
    while attempt < maxRetries
      invariant 0 <= attempt <= Budget(maxRetries) && attempt <= cancelAt
      invariant fetches == attempt && sleeps == (if attempt == 0 then 0 else attempt - 1)
      invariant forall k :: 0 <= k < attempt ==> fetch(k).FetchFailed?
      invariant lastErr == if attempt == 0 then None else Some(fetch(attempt - 1).message)
      invariant result == ProductResult(product.id, [], false, "")
    {
      if attempt == cancelAt {
        // The context is done before this attempt.
        result := result.(error := CanceledMessage);
        return ScrapeRun(result, fetches, sleeps);
      }
      if attempt > 0 {
        sleeps := sleeps + 1;
      }
      var outcome := fetch(attempt);
      fetches := fetches + 1;
      if outcome.Fetched? {
        result := result.(images := outcome.images, success := true);
        return ScrapeRun(result, fetches, sleeps);
      }
      lastErr := Some(outcome.message);
      attempt := attempt + 1;
    }
    if lastErr.Some? {
      result := result.(error := lastErr.value);
    } else {
      result := result.(error := ExhaustedMessage);
    }
    run := ScrapeRun(result, fetches, sleeps);
  }

  /** A transient failure is invisible once a retry succeeds: a fetch that
      fails once and then succeeds, with two attempts allowed and no
      cancellation, yields a success after two fetches and one delay. */
  lemma FailOnceThenSucceed(id: string, cancelAt: nat, fetch: nat -> FetchOutcome)
    requires cancelAt >= 2
    requires fetch(0).FetchFailed? && fetch(1).Fetched?
    ensures var run := RetrySpec(2, id, cancelAt, fetch);
      && run.result.success && run.result.images == fetch(1).images
      && run.fetches == 2 && run.sleeps == 1
  {
  }

  /** With a fetch that always succeeds and no cancellation before the
      first attempt, the first fetch is the only one and its images are the
      result's. */
  lemma AlwaysSucceedingFetchesOnce(maxRetries: int, id: string, cancelAt: nat, fetch: nat -> FetchOutcome)
    requires maxRetries >= 1 && cancelAt >= 1
    requires forall k :: fetch(k).Fetched?
    ensures var run := RetrySpec(maxRetries, id, cancelAt, fetch);
      && run.result.success && run.fetches == 1 && run.sleeps == 0
      && run.result.images == fetch(0).images
  {
  }

  /** With a fetch that always fails and no cancellation, every allowed
      attempt is made and the last error is reported. */
  lemma AlwaysFailingUsesWholeBudget(maxRetries: int, id: string, cancelAt: nat, fetch: nat -> FetchOutcome)
    requires maxRetries >= 1 && cancelAt >= maxRetries
    requires forall k :: fetch(k).FetchFailed?
    ensures var run := RetrySpec(maxRetries, id, cancelAt, fetch);
      && !run.result.success && run.fetches == maxRetries
      && run.result.error == fetch(maxRetries - 1).message
  {
  }

  /** The fetch oracle of the `i`-th product a worker receives. */
  function ItemFetch(fetch: (nat, nat) -> FetchOutcome, i: nat): nat -> FetchOutcome
  {
    (k: nat) => fetch(i, k)
  }

  /** The results a worker publishes for the first `n` products it
      receives, in order: one ScrapeProduct call per product. Product `i`
      has its own cancellation cut-off `cancelAt(i)` and fetch oracle
      `fetch(i, _)`. */
  function WorkerResults(received: seq<Product>, n: nat, maxRetries: int,
                         cancelAt: nat -> nat, fetch: (nat, nat) -> FetchOutcome): (rs: seq<ProductResult>)
    requires n <= |received|
    ensures |rs| == n
    ensures forall i :: 0 <= i < n ==> rs[i].id == received[i].id
  {
    if n == 0 then []
    else
      WorkerResults(received, n - 1, maxRetries, cancelAt, fetch)
      + [RetrySpec(maxRetries, received[n - 1].id, cancelAt(n - 1), ItemFetch(fetch, n - 1)).result]
  }

  /** Worker, sequentially: receive, scrape, publish, until the product
      stream is closed or the worker sees the cancellation before receiving
      (or while publishing) product `stopAt`. */
  method Worker(received: seq<Product>, stopAt: nat, maxRetries: int,
                cancelAt: nat -> nat, fetch: (nat, nat) -> FetchOutcome)
    returns (published: seq<ProductResult>)
    ensures published == WorkerResults(received, Min(stopAt, |received|), maxRetries, cancelAt, fetch)
  {
    published := [];
    var i := 0;
    while true
      invariant 0 <= i <= Min(stopAt, |received|)
      invariant published == WorkerResults(received, i, maxRetries, cancelAt, fetch)
      decreases |received| - i
    {
      if i == stopAt || i == |received| {
        // Cancellation seen, or the product stream closed.
        break;
      }
      var run := ScrapeProduct(maxRetries, received[i], cancelAt(i), ItemFetch(fetch, i));
      published := published + [run.result];
      i := i + 1;
    }
  }
}
