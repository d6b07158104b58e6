/** The log explorer: a fetch asks the backend for logs matching the query;
    a non-empty answer is shown as it is, and an empty answer or a failed
    request shows the built-in sample logs filtered by the query. */
module LogExplorer {
  import opened Wrappers
  import opened Strings
  import opened Seqs
  import opened Fetch

  datatype LogRecord = LogRecord(id: string, timestamp: string, level: string, source: string, event: string)

  /** The sample filter: an empty query keeps everything; otherwise the
      lower-cased event must contain the lower-cased query, or the level,
      as it is, must contain it. */
  predicate SampleKeeps(query: string, l: LogRecord) {
    query == "" || Contains(Lower(l.event), Lower(query)) || Contains(l.level, Lower(query))
  }

  function SampleKeepsFor(query: string): LogRecord -> bool {
    (l: LogRecord) => SampleKeeps(query, l)
  }

  /** The logs a finished fetch installs. */
  function FetchedLogs(resp: Response<LogRecord>, sample: seq<LogRecord>, query: string): (r: seq<LogRecord>)
    ensures HasData(resp) ==> r == resp.data.value
    ensures !HasData(resp) ==> forall l :: l in r <==> l in sample && SampleKeeps(query, l)
    ensures !HasData(resp) ==> IsSubseq(r, sample) && |r| == KeptCount(sample, SampleKeepsFor(query))
  {
    if HasData(resp) then resp.data.value
    else
      FilterCount(sample, SampleKeepsFor(query));
      Filter(sample, SampleKeepsFor(query))
  }

  /** An empty answer, a missing list and a failed request all show the
      same filtered sample. */
  lemma ErrorLikeEmpty(sample: seq<LogRecord>, query: string)
    ensures FetchedLogs(Failed, sample, query) == FetchedLogs(Received(Some([])), sample, query)
    ensures FetchedLogs(Failed, sample, query) == FetchedLogs(Received(None), sample, query)
  {
  }

  /** With an empty query the fallback is the whole sample list. */
  lemma EmptyQueryKeepsSample(resp: Response<LogRecord>, sample: seq<LogRecord>)
    requires !HasData(resp)
    ensures FetchedLogs(resp, sample, "") == sample
  {
    FilterKeepsAll(sample, SampleKeepsFor(""));
  }

  /** The level is not lower-cased: a query "critical" does not find a
      record whose level is "CRITICAL" and whose event does not mention it. */
  lemma LevelIsCaseSensitive()
    ensures !SampleKeeps("critical", LogRecord("1", "t", "CRITICAL", "AuthService", "Login"))
  {
    assert Lower("critical") == "critical";
    assert |Lower("Login")| == 5;
    assert !("critical" <= "CRITICAL") by {
      assert "critical"[0] != "CRITICAL"[0];
    }
    assert |"CRITICAL"[1..]| < |"critical"|;
  }

  /** The page's state. */
  class Explorer {
    /** The `searchQuery` state cell. */
    var searchQuery: string
    /** The `logs` state cell. */
    var logs: seq<LogRecord>
    /** The `isLoading` state cell. */
    var isLoading: bool
    /** The query the fetch in flight was started with. */
    var fetchQuery: string

    /** Mounting starts a fetch, so the page starts loading. */
    constructor ()
      ensures searchQuery == "" && logs == [] && isLoading && fetchQuery == ""
    {
      searchQuery := "";
      logs := [];
      isLoading := true;
      fetchQuery := "";
    }

    method SetQuery(q: string)
      modifies this
      ensures searchQuery == q
      ensures logs == old(logs) && isLoading == old(isLoading) && fetchQuery == old(fetchQuery)
    {
      searchQuery := q;
    }

    /** The start of `fetchLogs`, up to the request. */
    method BeginFetch()
      modifies this
      ensures isLoading && fetchQuery == searchQuery
      ensures searchQuery == old(searchQuery) && logs == old(logs)
    {
      isLoading := true;
      fetchQuery := searchQuery;
    }

    /** The rest of `fetchLogs`, once the request has answered or failed:
        the logs are replaced and loading ends on either path. */
    method FinishFetch(resp: Response<LogRecord>, sample: seq<LogRecord>)
      modifies this
      ensures logs == FetchedLogs(resp, sample, old(fetchQuery))
      ensures !isLoading
      ensures searchQuery == old(searchQuery) && fetchQuery == old(fetchQuery)
    {
      logs := FetchedLogs(resp, sample, fetchQuery);
      isLoading := false;
    }
  }
}
