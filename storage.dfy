/** The result/failure ledger (internal/storage/storage.go): an in-memory
    list of successful results and a list of failure records deduplicated
    on the (ID, URL) pair, written to two sinks by GenerateFinalOutput.
    The mutex is not modelled: every operation here runs alone. */
module Storage {
  import opened Common
  import opened Models

  predicate SameKey(f: FailedUrl, id: string, url: string)
  {
    f.id == id && f.url == url
  }

  /** No two failure records share an (ID, URL) pair. */
  predicate NoDuplicateKeys(fs: seq<FailedUrl>)
  {
    forall i, j :: 0 <= i < j < |fs| ==> !SameKey(fs[j], fs[i].id, fs[i].url)
  }

  /** The ledger's invariant on its failure records. */
  predicate WellFormed(fs: seq<FailedUrl>)
  {
    NoDuplicateKeys(fs) && forall i :: 0 <= i < |fs| ==> fs[i].attempts >= 1
  }

  /** The index of the first record at or after `from` with key (id, url):
      the linear search of SaveFailedURL. */
  function FindFailure(fs: seq<FailedUrl>, id: string, url: string, from: nat): (r: Option<nat>)
    decreases |fs| - from
    ensures r.Some? ==> from <= r.value < |fs| && SameKey(fs[r.value], id, url)
    ensures r.Some? ==> forall j :: from <= j < r.value ==> !SameKey(fs[j], id, url)
    ensures r.None? ==> forall j :: from <= j < |fs| ==> !SameKey(fs[j], id, url)
  {
    if from >= |fs| then None
    else if SameKey(fs[from], id, url) then Some(from)
    else FindFailure(fs, id, url, from + 1)
  }

  function KeyIndex(fs: seq<FailedUrl>, id: string, url: string): Option<nat>
  {
    FindFailure(fs, id, url, 0)
  }

  /** The failure list after SaveFailedURL(id, url, msg): the first record
      with that key gets the new message and one more attempt; without one,
      a record with one attempt is appended. Every record with another key
      keeps its place and value, and the invariant is kept. */
  function RecordFailure(fs: seq<FailedUrl>, id: string, url: string, msg: string): (r: seq<FailedUrl>)
    ensures |r| == if KeyIndex(fs, id, url).Some? then |fs| else |fs| + 1
    ensures forall j :: 0 <= j < |fs| && !SameKey(fs[j], id, url) ==> r[j] == fs[j]
    ensures WellFormed(fs) ==> WellFormed(r)
  {
    match KeyIndex(fs, id, url)
    case Some(k) => fs[k := fs[k].(error := msg, attempts := fs[k].attempts + 1)]
    case None => fs + [FailedUrl(id, url, msg, 1)]
  }

  /** An existing (id, url) record is updated in place: same length, new
      message, one more attempt, same key, and nothing else changes. */
  lemma RecordFailureUpdatesExisting(fs: seq<FailedUrl>, id: string, url: string, msg: string, i: nat)
    requires NoDuplicateKeys(fs)
    requires i < |fs| && SameKey(fs[i], id, url)
    ensures var r := RecordFailure(fs, id, url, msg);
      && |r| == |fs|
      && r[i].id == id && r[i].url == url
      && r[i].error == msg
      && r[i].attempts == fs[i].attempts + 1
      && forall j :: 0 <= j < |fs| && j != i ==> r[j] == fs[j]
  {
  }

  /** A new (id, url) pair appends exactly one record with one attempt. */
  lemma RecordFailureAppendsNew(fs: seq<FailedUrl>, id: string, url: string, msg: string)
    requires forall j :: 0 <= j < |fs| ==> !SameKey(fs[j], id, url)
    ensures RecordFailure(fs, id, url, msg) == fs + [FailedUrl(id, url, msg, 1)]
  {
  }

  /** The key is the pair: the same id under another url is a separate
      record, and the first one is left alone. */
  lemma SameIdOtherUrlIsSeparate(fs: seq<FailedUrl>, id: string, url: string, other: string, msg: string)
    requires WellFormed(fs)
    requires url != other
    requires KeyIndex(fs, id, url).Some? && KeyIndex(fs, id, other).None?
    ensures var r := RecordFailure(fs, id, other, msg);
      && |r| == |fs| + 1
      && r[KeyIndex(fs, id, url).value] == fs[KeyIndex(fs, id, url).value]
      && r[|fs|] == FailedUrl(id, other, msg, 1)
  {
  }

  /** How often (id, url) has been recorded as failed: its record's
      attempts, or 0 when there is none. */
  function AttemptsOf(fs: seq<FailedUrl>, id: string, url: string): int
  {
    match KeyIndex(fs, id, url)
    case Some(k) => fs[k].attempts
    case None => 0
  }

  /** Two lists with the same keys at the same places answer every key
      lookup the same. */
  lemma KeyIndexSameKeys(fs: seq<FailedUrl>, gs: seq<FailedUrl>, id: string, url: string)
    requires |fs| <= |gs|
    requires forall j :: 0 <= j < |fs| ==> gs[j].id == fs[j].id && gs[j].url == fs[j].url
    requires KeyIndex(fs, id, url).Some?
    ensures KeyIndex(gs, id, url) == KeyIndex(fs, id, url)
  {
  }

  /** Recording a failure adds one attempt to its own key and none to any
      other: repeated failures of one key coalesce into a counter. */
  lemma {:induction false} RecordFailureCounts(fs: seq<FailedUrl>, id: string, url: string, msg: string, id': string, url': string)
    requires NoDuplicateKeys(fs)
    ensures AttemptsOf(RecordFailure(fs, id, url, msg), id', url')
      == AttemptsOf(fs, id', url') + (if id' == id && url' == url then 1 else 0)
  {
    var r := RecordFailure(fs, id, url, msg);
    match KeyIndex(fs, id, url)
    case Some(k) =>
      assert forall j :: 0 <= j < |fs| ==> r[j].id == fs[j].id && r[j].url == fs[j].url;
      if KeyIndex(fs, id', url').Some? {
        KeyIndexSameKeys(fs, r, id', url');
      } else {
        assert forall j :: 0 <= j < |r| ==> !SameKey(r[j], id', url') by {
          forall j | 0 <= j < |r| ensures !SameKey(r[j], id', url') {
            assert !SameKey(fs[j], id', url');
          }
        }
      }
    case None =>
      assert forall j :: 0 <= j < |fs| ==> r[j] == fs[j];
      if KeyIndex(fs, id', url').Some? {
        KeyIndexSameKeys(fs, r, id', url');
      } else if id' == id && url' == url {
        assert SameKey(r[|fs|], id', url');
      } else {
        assert forall j :: 0 <= j < |r| ==> !SameKey(r[j], id', url') by {
          forall j | 0 <= j < |r| ensures !SameKey(r[j], id', url') {
            if j < |fs| { assert !SameKey(fs[j], id', url'); }
          }
        }
      }
  }

  /** The sum of all attempts in a failure list. */
  function TotalAttempts(fs: seq<FailedUrl>): int
  {
    if fs == [] then 0 else TotalAttempts(fs[..|fs| - 1]) + fs[|fs| - 1].attempts
  }

  lemma {:induction false} TotalAttemptsUpdate(fs: seq<FailedUrl>, k: nat, f: FailedUrl)
    requires k < |fs|
    ensures TotalAttempts(fs[k := f]) == TotalAttempts(fs) - fs[k].attempts + f.attempts
    decreases |fs|
  {
    var gs := fs[k := f];
    if k < |fs| - 1 {
      assert gs[..|gs| - 1] == fs[..|fs| - 1][k := f];
      TotalAttemptsUpdate(fs[..|fs| - 1], k, f);
    } else {
      assert gs[..|gs| - 1] == fs[..|fs| - 1];
    }
  }

  /** Every SaveFailedURL call adds exactly one attempt to the ledger. */
  lemma RecordFailureAddsOneAttempt(fs: seq<FailedUrl>, id: string, url: string, msg: string)
    ensures TotalAttempts(RecordFailure(fs, id, url, msg)) == TotalAttempts(fs) + 1
  {
    match KeyIndex(fs, id, url)
    case Some(k) =>
      TotalAttemptsUpdate(fs, k, fs[k].(error := msg, attempts := fs[k].attempts + 1));
    case None =>
      var r := fs + [FailedUrl(id, url, msg, 1)];
      assert r[..|r| - 1] == fs;
  }

  /** What a writer produced: the records the sink now holds, or a failed
      write whose effect on the sink is unknown. */
  datatype Sink<T> = Holds(records: seq<T>) | NotWritten

  /** The outcome of one `saveToJSON` call, supplied from outside:
      marshalling and the file write are I/O and not modelled. */
  datatype WriteOutcome = Written | MarshalFailed(reason: string) | WriteFailed(reason: string)

  const MarshalPrefix := "failed to marshal data: "
  const WritePrefix := "failed to write file: "
  const FinalOutputPrefix := "failed to save final output: "

  /** The error `saveToJSON` returns for an outcome, if any. */
  function SaveError(outcome: WriteOutcome): (e: Option<string>)
    ensures e.None? <==> outcome.Written?
    ensures outcome.MarshalFailed? ==> e == Some(MarshalPrefix + outcome.reason)
    ensures outcome.WriteFailed? ==> e == Some(WritePrefix + outcome.reason)
  {
    match outcome
    case Written => None
    case MarshalFailed(reason) => Some(MarshalPrefix + reason)
    case WriteFailed(reason) => Some(WritePrefix + reason)
  }

  function Save<T>(data: seq<T>, outcome: WriteOutcome): (s: Sink<T>)
    ensures s.Holds? <==> outcome.Written?
    ensures s.Holds? ==> s.records == data
  {
    if outcome.Written? then Holds(data) else NotWritten
  }

  /** The storage manager. `failedUrls` and `allResults` are the two lists
      the source mutates by `append` and by in-place record updates. */
  class Manager {
    var failedUrls: seq<FailedUrl>
    var allResults: seq<ProductResult>

    /** The ledger invariant: no two failure records share an (ID, URL)
        key, and every record counts at least one attempt. */
    ghost predicate Valid()
      reads this
    {
      WellFormed(failedUrls)
    }

    /** NewManager: both lists start empty. */
    constructor ()
      ensures failedUrls == [] && allResults == []
      ensures Valid()
    {
      failedUrls := [];
      allResults := [];
    }

    /** SaveResult appends the result and touches nothing else. */
    method SaveResult(result: ProductResult)
      modifies this
      ensures allResults == old(allResults) + [result]
      ensures failedUrls == old(failedUrls)
      ensures old(Valid()) ==> Valid()
    {
      allResults := allResults + [result];
    }

    /** SaveFailedURL: the linear search for the (id, url) record, then an
        in-place update of it or an append of a new one. */
    method SaveFailedUrl(id: string, url: string, errMsg: string)
      modifies this
      ensures failedUrls == RecordFailure(old(failedUrls), id, url, errMsg)
      ensures allResults == old(allResults)
      ensures old(Valid()) ==> Valid()
    {
      var found := false;
      var i := 0;
      while i < |failedUrls|
        invariant 0 <= i <= |failedUrls|
        invariant failedUrls == old(failedUrls) && allResults == old(allResults)
        invariant FindFailure(failedUrls, id, url, i) == KeyIndex(failedUrls, id, url)
      {
        if failedUrls[i].id == id && failedUrls[i].url == url {
          failedUrls := failedUrls[i := failedUrls[i].(error := errMsg, attempts := failedUrls[i].attempts + 1)];
          found := true;
          break;
        }
        i := i + 1;
      }
      if !found {
        failedUrls := failedUrls + [FailedUrl(id, url, errMsg, 1)];
      }
    }

    /** GenerateFinalOutput: writes the failure list (a failure there is only
        logged), then the results; only the results write decides the
        returned error. Neither list changes (no modifies clause). */
    method GenerateFinalOutput(failedOutcome: WriteOutcome, finalOutcome: WriteOutcome)
      returns (err: Option<string>, failedSink: Sink<FailedUrl>, finalSink: Sink<ProductResult>)
      ensures err.None? <==> finalOutcome.Written?
      ensures finalOutcome.MarshalFailed? ==> err == Some(FinalOutputPrefix + MarshalPrefix + finalOutcome.reason)
      ensures finalOutcome.WriteFailed? ==> err == Some(FinalOutputPrefix + WritePrefix + finalOutcome.reason)
      ensures failedOutcome.Written? ==> failedSink == Holds(failedUrls)
      ensures finalOutcome.Written? ==> finalSink == Holds(allResults)
      ensures !failedOutcome.Written? ==> failedSink == NotWritten
      ensures !finalOutcome.Written? ==> finalSink == NotWritten
    {
      failedSink := Save(failedUrls, failedOutcome);
      finalSink := Save(allResults, finalOutcome);
      var saveErr := SaveError(finalOutcome);
      if saveErr.Some? {
        var reason := saveErr.value;
        assert finalOutcome.MarshalFailed? ==> FinalOutputPrefix + reason == FinalOutputPrefix + MarshalPrefix + finalOutcome.reason;
        assert finalOutcome.WriteFailed? ==> FinalOutputPrefix + reason == FinalOutputPrefix + WritePrefix + finalOutcome.reason;
        return Some(FinalOutputPrefix + reason), failedSink, finalSink;
      }
      err := None;
    }
  }

  /** The storage test: one saved result and one saved failure produce
      sinks with exactly that result and exactly that failure record. */
  method StoreOneOfEach(result: ProductResult, id: string, url: string, errMsg: string)
    returns (err: Option<string>, failedSink: Sink<FailedUrl>, finalSink: Sink<ProductResult>)
    ensures err == None
    ensures finalSink == Holds([result])
    ensures failedSink == Holds([FailedUrl(id, url, errMsg, 1)])
  {
    var m := new Manager();
    m.SaveResult(result);
    m.SaveFailedUrl(id, url, errMsg);
    err, failedSink, finalSink := m.GenerateFinalOutput(Written, Written);
  }
}
