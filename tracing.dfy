/** The distributed-tracing page's search: a trace stays listed when its
    service name or operation contains the search term, ignoring case. */
module Tracing {
  import opened Seqs
  import opened Search

  datatype Trace = Trace(
    id: string, serviceName: string, operation: string,
    duration: nat, timestamp: string, status: string, spansCount: nat)

  predicate Keeps(term: string, t: Trace) {
    Matches(t.serviceName, term) || Matches(t.operation, term)
  }

  function KeepsFor(term: string): Trace -> bool {
    (t: Trace) => Keeps(term, t)
  }

  /** `filteredTraces` */
  function Filtered(traces: seq<Trace>, term: string): (r: seq<Trace>)
    ensures forall t :: t in r <==> t in traces && Keeps(term, t)
    ensures IsSubseq(r, traces) && |r| == KeptCount(traces, KeepsFor(term))
  {
    FilterCount(traces, KeepsFor(term));
    Filter(traces, KeepsFor(term))
  }

  /** An empty term keeps every trace, in order. */
  lemma EmptySearchKeepsAll(traces: seq<Trace>)
    ensures Filtered(traces, "") == traces
  {
    forall t | t in traces ensures Keeps("", t) {
      EmptyTermMatches(t.serviceName);
    }
    FilterKeepsAll(traces, KeepsFor(""));
  }

  /** What the list area shows. */
  datatype View = NoTracesFound | Rows(traces: seq<Trace>)

  function Render(traces: seq<Trace>, term: string): (v: View)
    ensures v.NoTracesFound? <==> forall t :: t in traces ==> !Keeps(term, t)
    ensures v.Rows? ==> v.traces == Filtered(traces, term) && |v.traces| > 0
  {
    var r := Filtered(traces, term);
    if |r| == 0 then NoTracesFound
    else
      assert r[0] in r;
      Rows(r)
  }
}
