/**
 The sample-accurate block splitting of `process`: a buffer of `n` samples is
 cut into sub-blocks of at most MAX_BLOCK_SIZE samples, each cut short at the
 next event that falls strictly inside it. At the head of each sub-block the
 waiting event and those after it are dispatched as long as each one's timing is
 at or before the sub-block's start; the first event that is not yet due stops
 the run, so an event delivered after a later-timed one waits for it.

 Only the event timings matter to the schedule; `ts` is that list, in the order
 the host delivers the events.
 */
module Schedule {
  import opened Types

  /** One sub-block `[start, end)`; the events with indices `[first, last)` are
      dispatched before it is rendered. */
  datatype SubBlock = SubBlock(start: nat, end: nat, first: nat, last: nat)

  /** The index of the first event, from `k` on, that is not yet due at
      `blockStart`: the `'events` loop dispatches the run of due events from
      `k` up to it. */
  function DrainEnd(ts: seq<nat>, k: nat, blockStart: nat): (j: nat)
    requires k <= |ts|
    ensures k <= j <= |ts|
    ensures forall e :: k <= e < j ==> ts[e] <= blockStart
    ensures j < |ts| ==> ts[j] > blockStart
    decreases |ts| - k
  {
    if k == |ts| || ts[k] > blockStart then k else DrainEnd(ts, k + 1, blockStart)
  }

  /** The end of the sub-block starting at `blockStart` once the events before
      `j` are dispatched: the full length, or the timing of event `j` when that
      falls inside it. */
  function CutEnd(n: nat, ts: seq<nat>, blockStart: nat, j: nat): (blockEnd: nat)
    requires blockStart < n && j <= |ts|
    requires j < |ts| ==> ts[j] > blockStart
    ensures blockStart < blockEnd <= Min(blockStart + MAX_BLOCK_SIZE, n)
  {
    var full := Min(blockStart + MAX_BLOCK_SIZE, n);
    if j < |ts| && ts[j] < full then ts[j] else full
  }

  /** The sub-blocks are non-empty, at most MAX_BLOCK_SIZE long, inside the
      buffer, contiguous, and the last one ends at `n`; their event ranges are
      contiguous too, starting at `k`. */
  ghost predicate Tiles(r: seq<SubBlock>, n: nat, blockStart: nat, k: nat, m: nat)
  {
    && (forall i :: 0 <= i < |r| ==> r[i].start < r[i].end <= r[i].start + MAX_BLOCK_SIZE && r[i].end <= n)
    && (forall i :: 0 <= i < |r| ==> k <= r[i].first <= r[i].last <= m)
    && (forall i, j :: 0 <= i && j == i + 1 && j < |r| ==> r[j].start == r[i].end && r[j].first == r[i].last)
    && (|r| > 0 ==> r[0].start == blockStart && r[0].first == k && r[|r| - 1].end == n)
  }

  /** The sub-blocks `process` renders from `blockStart` on, with event `k` next. */
  function Blocks(n: nat, ts: seq<nat>, blockStart: nat, k: nat): (r: seq<SubBlock>)
    requires k <= |ts|
    ensures r == [] <==> blockStart >= n
    ensures r != [] ==> r[0].start == blockStart && r[0].first == k
    decreases n - blockStart
  {
    if blockStart >= n then []
    else
      var j := DrainEnd(ts, k, blockStart);
      var blockEnd := CutEnd(n, ts, blockStart, j);
      [SubBlock(blockStart, blockEnd, k, j)] + Blocks(n, ts, blockEnd, j)
  }

  /** The schedule tiles the rest of the buffer. */
  lemma {:induction false} BlocksTile(n: nat, ts: seq<nat>, blockStart: nat, k: nat)
    requires k <= |ts|
    ensures Tiles(Blocks(n, ts, blockStart, k), n, blockStart, k, |ts|)
    decreases n - blockStart
  {
    if blockStart < n {
      var j := DrainEnd(ts, k, blockStart);
      var blockEnd := CutEnd(n, ts, blockStart, j);
      var b := SubBlock(blockStart, blockEnd, k, j);
      var r' := Blocks(n, ts, blockEnd, j);
      BlocksTile(n, ts, blockEnd, j);
      var r := Blocks(n, ts, blockStart, k);
      assert r == [b] + r';
      forall i | 0 < i < |r| ensures r[i] == r'[i - 1] { }
      if r' == [] {
        assert blockEnd == n;
      } else {
        assert r[|r| - 1] == r'[|r'| - 1];
      }
    }
  }

  /** Index of the event that is next once the given sub-blocks are done. */
  function Consumed(r: seq<SubBlock>, k: nat): nat
  {
    if r == [] then k else r[|r| - 1].last
  }

  /** The index of the event waiting when the block loop ends, computed the
      way the loop runs. */
  function FinalEvent(n: nat, ts: seq<nat>, blockStart: nat, k: nat): nat
    requires k <= |ts|
    decreases n - blockStart
  {
    if blockStart >= n then k
    else
      var j := DrainEnd(ts, k, blockStart);
      FinalEvent(n, ts, CutEnd(n, ts, blockStart, j), j)
  }

  /** The loop ends with the event that follows the last sub-block's range. */
  lemma {:induction false} FinalEventIsConsumed(n: nat, ts: seq<nat>, blockStart: nat, k: nat)
    requires k <= |ts|
    ensures FinalEvent(n, ts, blockStart, k) == Consumed(Blocks(n, ts, blockStart, k), k)
    decreases n - blockStart
  {
    if blockStart < n {
      var j := DrainEnd(ts, k, blockStart);
      var blockEnd := CutEnd(n, ts, blockStart, j);
      FinalEventIsConsumed(n, ts, blockEnd, j);
      var r' := Blocks(n, ts, blockEnd, j);
      assert Blocks(n, ts, blockStart, k) == [SubBlock(blockStart, blockEnd, k, j)] + r';
    }
  }

  /** Every event dispatched at the head of a sub-block is due by its start,
      and the event left waiting there is not yet due. */
  ghost predicate NeverEarly(r: seq<SubBlock>, ts: seq<nat>)
  {
    && (forall i, e :: 0 <= i < |r| && r[i].first <= e < r[i].last && e < |ts| ==> ts[e] <= r[i].start)
    && (forall i :: 0 <= i < |r| && r[i].last < |ts| ==> ts[r[i].last] > r[i].start)
  }

  /** No event is dispatched early. */
  lemma {:induction false} NoEventEarly(n: nat, ts: seq<nat>, blockStart: nat, k: nat)
    requires k <= |ts|
    ensures NeverEarly(Blocks(n, ts, blockStart, k), ts)
    decreases n - blockStart
  {
    var r := Blocks(n, ts, blockStart, k);
    if blockStart < n {
      var j := DrainEnd(ts, k, blockStart);
      var blockEnd := CutEnd(n, ts, blockStart, j);
      var r' := Blocks(n, ts, blockEnd, j);
      NoEventEarly(n, ts, blockEnd, j);
      assert r == [SubBlock(blockStart, blockEnd, k, j)] + r';
      forall i | 0 < i < |r| ensures r[i] == r'[i - 1] { }
    }
  }

  /** A sub-block is shorter than the full length exactly when the next waiting
      event falls strictly inside it, and then it ends at that event's timing. */
  ghost predicate CutAt(b: SubBlock, ts: seq<nat>, n: nat)
  {
    var full := Min(b.start + MAX_BLOCK_SIZE, n);
    && (b.end < full <==> b.last < |ts| && ts[b.last] < full)
    && (b.end < full ==> b.last < |ts| && b.end == ts[b.last])
  }

  ghost predicate CutAtEvents(r: seq<SubBlock>, ts: seq<nat>, n: nat)
  {
    forall i :: 0 <= i < |r| ==> CutAt(r[i], ts, n)
  }

  lemma {:induction false} CutAtNextEvent(n: nat, ts: seq<nat>, blockStart: nat, k: nat)
    requires k <= |ts|
    ensures CutAtEvents(Blocks(n, ts, blockStart, k), ts, n)
    decreases n - blockStart
  {
    var r := Blocks(n, ts, blockStart, k);
    if blockStart < n {
      var j := DrainEnd(ts, k, blockStart);
      var blockEnd := CutEnd(n, ts, blockStart, j);
      var r' := Blocks(n, ts, blockEnd, j);
      CutAtNextEvent(n, ts, blockEnd, j);
      assert r == [SubBlock(blockStart, blockEnd, k, j)] + r';
      forall i | 0 < i < |r| ensures r[i] == r'[i - 1] { }
    }
  }

  ghost predicate Covered(r: seq<SubBlock>, x: nat)
  {
    exists i :: 0 <= i < |r| && r[i].start <= x < r[i].end
  }

  /** Every sample offset of `[blockStart, n)` lies in some sub-block. */
  lemma {:induction false} EverySampleCovered(n: nat, ts: seq<nat>, blockStart: nat, k: nat, x: nat)
    requires k <= |ts| && blockStart <= x < n
    ensures Covered(Blocks(n, ts, blockStart, k), x)
    decreases n - blockStart
  {
    var r := Blocks(n, ts, blockStart, k);
    var j := DrainEnd(ts, k, blockStart);
    var blockEnd := CutEnd(n, ts, blockStart, j);
    var r' := Blocks(n, ts, blockEnd, j);
    assert r == [SubBlock(blockStart, blockEnd, k, j)] + r';
    if x >= blockEnd {
      EverySampleCovered(n, ts, blockEnd, j, x);
      var i :| 0 <= i < |r'| && r'[i].start <= x < r'[i].end;
      assert r[i + 1] == r'[i];
    } else {
      assert r[0] == SubBlock(blockStart, blockEnd, k, j);
    }
  }

  ghost predicate InOrder(r: seq<SubBlock>)
  {
    forall a, b :: 0 <= a < b < |r| ==> r[a].end <= r[b].start
  }

  /** Sub-blocks follow each other in order without overlap. */
  lemma {:induction false} BlocksOrdered(n: nat, ts: seq<nat>, blockStart: nat, k: nat)
    requires k <= |ts|
    ensures InOrder(Blocks(n, ts, blockStart, k))
    decreases n - blockStart
  {
    var r := Blocks(n, ts, blockStart, k);
    if blockStart < n {
      var j := DrainEnd(ts, k, blockStart);
      var blockEnd := CutEnd(n, ts, blockStart, j);
      var r' := Blocks(n, ts, blockEnd, j);
      BlocksOrdered(n, ts, blockEnd, j);
      assert r == [SubBlock(blockStart, blockEnd, k, j)] + r';
      forall a, b | 0 <= a < b < |r| ensures r[a].end <= r[b].start {
        assert r[b] == r'[b - 1];
        if a > 0 {
          assert r[a] == r'[a - 1];
        } else {
          assert r'[0].start == blockEnd;
          assert r'[0].end <= r'[b - 1].start || b - 1 == 0;
        }
      }
    }
  }

  /** An event delivered after a later-timed one is dispatched late: with
      timings [5, 0] the event timed 0 waits for the first one and is
      dispatched at the head of the sub-block starting at 5. */
  lemma OutOfOrderEventDispatchedLate()
    ensures Blocks(10, [5, 0], 0, 0) == [SubBlock(0, 5, 0, 0), SubBlock(5, 10, 0, 2)]
  {
    var ts: seq<nat> := [5, 0];
    assert DrainEnd(ts, 0, 0) == 0;
    assert CutEnd(10, ts, 0, 0) == 5;
    assert DrainEnd(ts, 0, 5) == 2 by {
      assert DrainEnd(ts, 2, 5) == 2;
      assert DrainEnd(ts, 1, 5) == 2;
    }
    assert CutEnd(10, ts, 5, 2) == 10;
    assert Blocks(10, ts, 10, 2) == [];
  }

  ghost predicate Sorted(ts: seq<nat>)
  {
    forall a, b :: 0 <= a < b < |ts| ==> ts[a] <= ts[b]
  }

  /** Each dispatched event is dispatched at the head of the sub-block that
      starts exactly at its timing. */
  ghost predicate OnTime(r: seq<SubBlock>, ts: seq<nat>)
  {
    forall i, e :: 0 <= i < |r| && r[i].first <= e < r[i].last && e < |ts| ==> ts[e] == r[i].start
  }

  /** For events delivered in timing order, all inside the buffer and none
      before the current position, every event is dispatched. */
  lemma {:induction false} SortedEventsAllDispatched(n: nat, ts: seq<nat>, blockStart: nat, k: nat)
    requires k <= |ts| && Sorted(ts)
    requires k < |ts| ==> blockStart <= ts[k]
    requires forall e :: k <= e < |ts| ==> ts[e] < n
    ensures Consumed(Blocks(n, ts, blockStart, k), k) == |ts|
    decreases n - blockStart
  {
    if blockStart < n {
      var j := DrainEnd(ts, k, blockStart);
      var blockEnd := CutEnd(n, ts, blockStart, j);
      assert j < |ts| ==> blockEnd <= ts[j];
      SortedEventsAllDispatched(n, ts, blockEnd, j);
      var r' := Blocks(n, ts, blockEnd, j);
      var r := Blocks(n, ts, blockStart, k);
      assert r == [SubBlock(blockStart, blockEnd, k, j)] + r';
      if r' == [] {
        assert blockEnd >= n;
      } else {
        assert r[|r| - 1] == r'[|r'| - 1];
      }
    }
  }

  /** Under the same conditions each event is dispatched at the head of the
      sub-block that starts exactly at its timing. */
  lemma {:induction false} SortedEventsOnTime(n: nat, ts: seq<nat>, blockStart: nat, k: nat)
    requires k <= |ts| && Sorted(ts)
    requires k < |ts| ==> blockStart <= ts[k]
    requires forall e :: k <= e < |ts| ==> ts[e] < n
    ensures OnTime(Blocks(n, ts, blockStart, k), ts)
    decreases n - blockStart
  {
    if blockStart < n {
      var j := DrainEnd(ts, k, blockStart);
      var blockEnd := CutEnd(n, ts, blockStart, j);
      forall e | k <= e < j ensures ts[e] == blockStart {
        assert ts[k] <= ts[e];
      }
      assert j < |ts| ==> blockEnd <= ts[j];
      SortedEventsOnTime(n, ts, blockEnd, j);
      var r' := Blocks(n, ts, blockEnd, j);
      var r := Blocks(n, ts, blockStart, k);
      assert r == [SubBlock(blockStart, blockEnd, k, j)] + r';
      forall i | 0 < i < |r| ensures r[i] == r'[i - 1] { }
    }
  }
}
