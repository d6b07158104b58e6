/** The live monitor's terminal: while the feed runs, every interval tick
    appends one line to a buffer that keeps only the most recent lines. */
module LiveMonitor {
  import opened Wrappers

  /** How many old lines a tick keeps (`slice(-20)`). */
  const Keep: nat := 20

  /** `[...prev.slice(-20), line]`: the last `min(20, |prev|)` lines of
      `prev`, in order, then the new one. */
  function Appended(prev: seq<string>, line: string): (r: seq<string>)
    ensures |r| == Min(|prev|, Keep) + 1
    ensures r[|r| - 1] == line
    ensures r[..|r| - 1] == prev[|prev| - Min(|prev|, Keep)..]
  {
    var kept := prev[|prev| - Min(|prev|, Keep)..];
    assert (kept + [line])[..|kept|] == kept;
    kept + [line]
  }

  /** The buffer after ticks delivering `lines`, one by one, onto `start`. */
  function Feed(start: seq<string>, lines: seq<string>): seq<string>
    decreases |lines|
  {
    if lines == [] then start
    else Feed(Appended(start, lines[0]), lines[1..])
  }

  /** The last `min(21, |all|)` elements of `all`: what the buffer can hold. */
  function Newest(all: seq<string>): (r: seq<string>)
    ensures |r| == Min(|all|, Keep + 1)
  {
    all[|all| - Min(|all|, Keep + 1)..]
  }

  /** From an empty buffer the feed holds exactly the last `min(21, n)` of
      the `n` lines delivered, in delivery order. */
  lemma FeedKeepsNewest(lines: seq<string>)
    ensures Feed([], lines) == Newest(lines)
  {
    if lines != [] {
      FeedWindow([], lines);
      assert [] + lines == lines;
    }
  }

  lemma {:induction false} FeedWindow(start: seq<string>, lines: seq<string>)
    requires |start| <= Keep + 1
    requires lines != []
    ensures Feed(start, lines) == Newest(start + lines)
    decreases |lines|
  {
    var next := Appended(start, lines[0]);
    var tail := start[|start| - Min(|start|, Keep)..];
    assert next == tail + [lines[0]];
    var all, all' := start + lines, next + lines[1..];
    assert all' == tail + lines;
    assert Feed(start, lines) == Feed(next, lines[1..]);
    if lines[1..] == [] {
      assert all' == next;
      assert Newest(next) == next;
    } else {
      FeedWindow(next, lines[1..]);
    }
    NewestOfSuffix(all, all');
  }

  /** A suffix at least as long as the window has the same window. */
  lemma NewestOfSuffix(all: seq<string>, suffix: seq<string>)
    requires |suffix| <= |all| && suffix == all[|all| - |suffix|..]
    requires |suffix| >= Min(|all|, Keep + 1)
    ensures Newest(suffix) == Newest(all)
  {
  }

  /** The monitor page's state. */
  class Monitor {
    /** The `logs` state cell. */
    var logs: seq<string>
    /** The `isLive` state cell. */
    var isLive: bool

    ghost predicate Valid()
      reads this
    {
      |logs| <= Keep + 1
    }

    constructor ()
      ensures Valid() && logs == [] && !isLive
    {
      logs := [];
      isLive := false;
    }

    /** The start/stop button. */
    method ToggleLive()
      requires Valid()
      modifies this
      ensures Valid()
      ensures isLive == !old(isLive) && logs == old(logs)
    {
      isLive := !isLive;
    }

    /** One tick of the interval: it exists only while the feed is live, so
        a stopped feed appends nothing. */
    method Tick(line: string)
      requires Valid()
      modifies this
      ensures Valid()
      ensures old(isLive) ==> logs == Appended(old(logs), line)
      ensures !old(isLive) ==> logs == old(logs)
      ensures isLive == old(isLive)
    {
      if isLive {
        logs := logs[|logs| - Min(|logs|, Keep)..] + [line];
      }
    }
  }
}
