/** The expandable log table of the threat-hunting page: a set of expanded
    log ids, toggled by clicking a row, that decides which rows show their
    details. */
module LogTable {
  import opened Seqs

  /** A `Set<string>` object: copied with `new Set(other)` and changed in
      place with `add` and `delete`. */
  class IdSet {
    var elems: set<string>

    constructor Empty()
      ensures elems == {}
    {
      elems := {};
    }

    /** `new Set(other)`: a fresh object with the same elements. */
    constructor Copy(other: IdSet)
      ensures elems == other.elems
    {
      elems := other.elems;
    }

    predicate Has(id: string)
      reads this
    {
      id in elems
    }

    method Add(id: string)
      modifies this
      ensures elems == old(elems) + {id}
    {
      elems := elems + {id};
    }

    method Delete(id: string)
      modifies this
      ensures elems == old(elems) - {id}
    {
      elems := elems - {id};
    }
  }

  /** The set after toggling `id`. */
  function Toggled(s: set<string>, id: string): (r: set<string>)
    ensures id in r <==> id !in s
    ensures forall x :: x != id ==> (x in r <==> x in s)
  {
    if id in s then s - {id} else s + {id}
  }

  /** Toggling the same row twice restores the set. */
  lemma ToggleTwice(s: set<string>, id: string)
    ensures Toggled(Toggled(s, id), id) == s
  {
  }

  /** One log entry, with the fields the table shows; `details` is only
      printed and is not modelled. */
  datatype LogEntry = LogEntry(id: string, timestamp: string, level: string, source: string, event: string)

  /** The rows the table body renders: each log's summary row, with the
      chevron pointing down when it is expanded, then its details row when
      it is expanded. */
  datatype Row = Summary(id: string, expanded: bool) | Details(id: string)

  function Rows(logs: seq<LogEntry>, expanded: set<string>): (rows: seq<Row>)
    ensures |rows| >= |logs|
  {
    if logs == [] then []
    else
      [Summary(logs[0].id, logs[0].id in expanded)]
      + (if logs[0].id in expanded then [Details(logs[0].id)] else [])
      + Rows(logs[1..], expanded)
  }

  /** A details row is shown for an id exactly when a log has that id and
      the id is expanded. */
  lemma {:induction false} DetailsShownIff(logs: seq<LogEntry>, expanded: set<string>, id: string)
    ensures Details(id) in Rows(logs, expanded) <==>
              id in expanded && exists i :: 0 <= i < |logs| && logs[i].id == id
  {
    if logs != [] {
      DetailsShownIff(logs[1..], expanded, id);
      var rest := Rows(logs[1..], expanded);
      var head := [Summary(logs[0].id, logs[0].id in expanded)]
                  + (if logs[0].id in expanded then [Details(logs[0].id)] else []);
      assert Rows(logs, expanded) == head + rest;
      if exists i :: 0 <= i < |logs[1..]| && logs[1..][i].id == id {
        var i :| 0 <= i < |logs[1..]| && logs[1..][i].id == id;
        assert logs[i + 1].id == id;
      }
      if exists i :: 0 <= i < |logs| && logs[i].id == id {
        var i :| 0 <= i < |logs| && logs[i].id == id;
        if i > 0 {
          assert logs[1..][i - 1].id == id;
        }
      }
    }
  }

  /** The row is a log's summary row. */
  function IsSummary(): Row -> bool {
    (row: Row) => row.Summary?
  }

  /** The summary row `logs.map` renders for one log. */
  function SummaryOf(expanded: set<string>): LogEntry -> Row {
    (log: LogEntry) => Summary(log.id, log.id in expanded)
  }

  /** The summary rows are one per log, in log order, each pointing its
      chevron down exactly when that log's id is expanded. */
  lemma {:induction false} SummaryRowsInOrder(logs: seq<LogEntry>, expanded: set<string>)
    ensures Filter(Rows(logs, expanded), IsSummary()) == Map(SummaryOf(expanded), logs)
  {
    if logs != [] {
      SummaryRowsStep(logs, expanded);
      SummaryRowsInOrder(logs[1..], expanded);
      MapStep(SummaryOf(expanded), logs);
    }
  }

  /** The summary rows of a non-empty log list: the first log's, then the
      rest's. */
  lemma SummaryRowsStep(logs: seq<LogEntry>, expanded: set<string>)
    requires logs != []
    ensures Filter(Rows(logs, expanded), IsSummary())
            == [SummaryOf(expanded)(logs[0])] + Filter(Rows(logs[1..], expanded), IsSummary())
  {
    var keep := IsSummary();
    var first: seq<Row> := [Summary(logs[0].id, logs[0].id in expanded)];
    var details: seq<Row> := if logs[0].id in expanded then [Details(logs[0].id)] else [];
    var rest := Rows(logs[1..], expanded);
    assert Rows(logs, expanded) == first + (details + rest);
    assert Filter(details, keep) == [] by {
      if details != [] {
        FilterSingle(details[0], keep);
      }
    }
    FilterSingle(first[0], keep);
    FilterAppend(details, rest, keep);
    FilterAppend(first, details + rest, keep);
  }

  /** The table component. */
  class Table {
    /** The `expandedRows` state cell. */
    var expandedRows: IdSet

    constructor ()
      ensures fresh(expandedRows) && expandedRows.elems == {}
    {
      expandedRows := new IdSet.Empty();
    }

    /** `toggleRow`: copies the set, adds or deletes `id` in the copy, and
        installs the copy; the set it replaced is left as it was. */
    method ToggleRow(id: string)
      modifies this
      ensures fresh(expandedRows)
      ensures expandedRows.elems == Toggled(old(expandedRows.elems), id)
      ensures unchanged(old(expandedRows))
    {
      var newExpanded := new IdSet.Copy(expandedRows);
      if newExpanded.Has(id) {
        newExpanded.Delete(id);
      } else {
        newExpanded.Add(id);
      }
      expandedRows := newExpanded;
    }

    /** The rows the table renders for `logs`. */
    function Render(logs: seq<LogEntry>): (rows: seq<Row>)
      reads this, expandedRows
      ensures forall id :: Details(id) in rows <==>
                id in expandedRows.elems && exists i :: 0 <= i < |logs| && logs[i].id == id
    {
      var rows := Rows(logs, expandedRows.elems);
      assert forall id :: Details(id) in rows <==>
               id in expandedRows.elems && exists i :: 0 <= i < |logs| && logs[i].id == id by {
        forall id ensures Details(id) in rows <==>
                 id in expandedRows.elems && exists i :: 0 <= i < |logs| && logs[i].id == id {
          DetailsShownIff(logs, expandedRows.elems, id);
        }
      }
      rows
    }
  }
}
