/**
 What one call of `process` does to the voice pool, as a function: the run of
 due events waiting at each sub-block's head is dispatched, every live voice is
 rendered, and finished voices are retired at the sub-block's end.

 The floating-point audio path is a parameter: `AudioPath` says, for each
 sub-block start and slot, whether the voice's envelope ends the sub-block at
 exactly 0.0 and what each filter band was last set to. Every property below
 holds for every such path.
 */
module Engine {
  import opened Types
  import opened Pool
  import opened Schedule

  /** The part of the plugin a buffer changes: the slots, the allocation
      counter, and the notifications sent to the host so far. */
  datatype PluginState = PluginState(slots: Slots, counter: U64, sent: seq<Terminated>)

  datatype AudioPath = AudioPath(
    envelopeAtZero: (nat, nat) -> bool,
    band: (nat, nat, nat) -> Biquad)

  /** The `match event` arm that handles one due event. */
  function Dispatch(st: PluginState, ev: NoteEvent): (r: PluginState)
    ensures |st.sent| <= |r.sent| && r.sent[..|st.sent|] == st.sent
  {
    match ev
    case NoteOn(timing, voiceId, channel, note) =>
      var started := Start(st.slots, st.counter, timing, voiceId, channel, note);
      PluginState(started.slots, started.counter, st.sent + started.emitted)
    case NoteOff(_, voiceId, channel, note) =>
      st.(slots := Release(st.slots, voiceId, channel, note))
    case Choke(timing, voiceId, channel, note) =>
      var choked := Pool.Choke(st.slots, timing, voiceId, channel, note);
      st.(slots := choked.slots, sent := st.sent + choked.emitted)
    case Other(_) => st
  }

  /** Dispatching the events `events[k0..k]` in order. */
  function DispatchRange(st: PluginState, events: seq<NoteEvent>, k0: nat, k: nat): PluginState
    requires k0 <= k <= |events|
    decreases k - k0
  {
    if k == k0 then st else DispatchRange(Dispatch(st, events[k0]), events, k0 + 1, k)
  }

  /** A live voice after rendering the sub-block that starts at `blockStart`. */
  function Rendered(v: Voice, blockStart: nat, slot: nat, audio: AudioPath): Voice
  {
    v.(filters := seq(NUM_FILTERS, (j: nat) => audio.band(blockStart, slot, j)),
       envelopeAtZero := audio.envelopeAtZero(blockStart, slot))
  }

  /** Rendering touches only the audio state of live voices. */
  function Render(s: Slots, blockStart: nat, audio: AudioPath): (r: Slots)
    ensures forall k :: 0 <= k < NUM_VOICES ==> (r[k].Some? <==> s[k].Some?)
    ensures forall k :: 0 <= k < NUM_VOICES && s[k].Some? ==>
      r[k].value.(filters := s[k].value.filters, envelopeAtZero := s[k].value.envelopeAtZero) == s[k].value
  {
    seq(NUM_VOICES, k requires 0 <= k < NUM_VOICES =>
      match s[k]
      case None => None
      case Some(v) => Some(Rendered(v, blockStart, k, audio)))
  }

  ghost predicate WellFormed(blocks: seq<SubBlock>, m: nat)
  {
    forall i :: 0 <= i < |blocks| ==> blocks[i].first <= blocks[i].last <= m
  }

  /** One sub-block: dispatch its head events, render, retire. Terminations
      from retirement carry `block_end as u32`. */
  function RunBlock(st: PluginState, b: SubBlock, events: seq<NoteEvent>, audio: AudioPath): PluginState
    requires b.first <= b.last <= |events|
  {
    var d := DispatchRange(st, events, b.first, b.last);
    var c := Retire(Render(d.slots, b.start, audio), ToU32(b.end));
    PluginState(c.slots, d.counter, d.sent + c.emitted)
  }

  /** Running a given schedule of sub-blocks in order. */
  function Run(st: PluginState, blocks: seq<SubBlock>, events: seq<NoteEvent>, audio: AudioPath): PluginState
    requires WellFormed(blocks, |events|)
    decreases |blocks|
  {
    if blocks == [] then st
    else Run(RunBlock(st, blocks[0], events, audio), blocks[1..], events, audio)
  }

  /** The `while block_start < num_samples` loop of a buffer of `n` samples,
      from sub-block start `blockStart` with event `k` waiting. */
  function RunFrom(st: PluginState, n: nat, events: seq<NoteEvent>, blockStart: nat, k: nat, audio: AudioPath): PluginState
    requires k <= |events|
    decreases n - blockStart
  {
    if blockStart >= n then st
    else
      var ts := Timings(events);
      var j := DrainEnd(ts, k, blockStart);
      var blockEnd := CutEnd(n, ts, blockStart, j);
      RunFrom(RunBlock(st, SubBlock(blockStart, blockEnd, k, j), events, audio), n, events, blockEnd, j, audio)
  }

  /** The whole block loop of one `process` call. */
  function ProcessBuffer(st: PluginState, n: nat, events: seq<NoteEvent>, audio: AudioPath): PluginState
  {
    RunFrom(st, n, events, 0, 0, audio)
  }

  /** The events left in the host's queue after the buffer: the first event
      not due within the buffer has already been taken out and is dropped. */
  function PendingAfter(events: seq<NoteEvent>, n: nat): seq<NoteEvent>
  {
    var k := FinalEvent(n, Timings(events), 0, 0);
    if k < |events| then events[k + 1..] else []
  }

  // ---------------------------------------------------------------------------
  // Properties
  // ---------------------------------------------------------------------------

  /** The loop as written runs exactly the sub-blocks of the schedule. */
  lemma {:induction false} RunFromFollowsSchedule(st: PluginState, n: nat, events: seq<NoteEvent>, blockStart: nat, k: nat, audio: AudioPath)
    requires k <= |events|
    ensures WellFormed(Blocks(n, Timings(events), blockStart, k), |events|)
    ensures RunFrom(st, n, events, blockStart, k, audio) == Run(st, Blocks(n, Timings(events), blockStart, k), events, audio)
    decreases n - blockStart
  {
    var ts := Timings(events);
    BlocksTile(n, ts, blockStart, k);
    if blockStart < n {
      var j := DrainEnd(ts, k, blockStart);
      var blockEnd := CutEnd(n, ts, blockStart, j);
      var b := SubBlock(blockStart, blockEnd, k, j);
      var next := RunBlock(st, b, events, audio);
      RunFromFollowsSchedule(next, n, events, blockEnd, j, audio);
      var r := Blocks(n, ts, blockStart, k);
      assert r == [b] + Blocks(n, ts, blockEnd, j);
      assert r[1..] == Blocks(n, ts, blockEnd, j);
    }
  }

  /** The notifications already sent are never revised. */
  lemma {:induction false} RunOnlyAppends(st: PluginState, blocks: seq<SubBlock>, events: seq<NoteEvent>, audio: AudioPath)
    requires WellFormed(blocks, |events|)
    ensures var r := Run(st, blocks, events, audio);
      |st.sent| <= |r.sent| && r.sent[..|st.sent|] == st.sent
    decreases |blocks|
  {
    if blocks != [] {
      var b := blocks[0];
      DispatchRangeOnlyAppends(st, events, b.first, b.last);
      var next := RunBlock(st, b, events, audio);
      assert WellFormed(blocks[1..], |events|);
      RunOnlyAppends(next, blocks[1..], events, audio);
    }
  }

  lemma {:induction false} DispatchRangeOnlyAppends(st: PluginState, events: seq<NoteEvent>, k0: nat, k: nat)
    requires k0 <= k <= |events|
    ensures var r := DispatchRange(st, events, k0, k);
      |st.sent| <= |r.sent| && r.sent[..|st.sent|] == st.sent
    decreases k - k0
  {
    if k > k0 {
      DispatchRangeOnlyAppends(Dispatch(st, events[k0]), events, k0 + 1, k);
    }
  }

  /** After a non-empty stretch of the loop no finished voice is left in the pool. */
  lemma {:induction false} NoFinishedVoiceLeft(st: PluginState, n: nat, events: seq<NoteEvent>, blockStart: nat, k: nat, audio: AudioPath)
    requires k <= |events| && blockStart < n
    ensures forall i :: 0 <= i < NUM_VOICES ==> !Finished(RunFrom(st, n, events, blockStart, k, audio).slots[i])
    decreases n - blockStart
  {
    var ts := Timings(events);
    var j := DrainEnd(ts, k, blockStart);
    var blockEnd := CutEnd(n, ts, blockStart, j);
    var next := RunBlock(st, SubBlock(blockStart, blockEnd, k, j), events, audio);
    if blockEnd < n {
      NoFinishedVoiceLeft(next, n, events, blockEnd, j, audio);
    }
  }

  lemma NoFinishedVoiceAfterBuffer(st: PluginState, n: nat, events: seq<NoteEvent>, audio: AudioPath)
    requires n > 0
    ensures forall i :: 0 <= i < NUM_VOICES ==> !Finished(ProcessBuffer(st, n, events, audio).slots[i])
  {
    NoFinishedVoiceLeft(st, n, events, 0, 0, audio);
  }

  /** Handling one event allocates at most one voice, with the next counter
      value, and release and choke only empty or mark slots, so the allocation
      order is kept. */
  lemma DispatchKeepsAllocationOrder(st: PluginState, ev: NoteEvent)
    requires AllocationOrdered(st.slots, st.counter) && st.counter + 1 < U64_LIMIT
    ensures var r := Dispatch(st, ev);
      AllocationOrdered(r.slots, r.counter) && st.counter <= r.counter <= st.counter + 1
  {
    match ev
    case NoteOn(timing, voiceId, channel, note) =>
      StartKeepsAllocationOrder(st.slots, st.counter, timing, voiceId, channel, note);
    case NoteOff(_, voiceId, channel, note) =>
      var r := Release(st.slots, voiceId, channel, note);
      assert forall k :: 0 <= k < NUM_VOICES && r[k].Some? ==>
        r[k].value.internalVoiceId == st.slots[k].value.internalVoiceId;
    case Choke(timing, voiceId, channel, note) =>
    case Other(_) =>
  }

  lemma {:induction false} DispatchRangeKeepsAllocationOrder(st: PluginState, events: seq<NoteEvent>, k0: nat, k: nat)
    requires k0 <= k <= |events|
    requires AllocationOrdered(st.slots, st.counter) && st.counter + (k - k0) < U64_LIMIT
    ensures var r := DispatchRange(st, events, k0, k);
      AllocationOrdered(r.slots, r.counter) && st.counter <= r.counter <= st.counter + (k - k0)
    decreases k - k0
  {
    if k > k0 {
      DispatchKeepsAllocationOrder(st, events[k0]);
      DispatchRangeKeepsAllocationOrder(Dispatch(st, events[k0]), events, k0 + 1, k);
    }
  }

  lemma RunBlockKeepsAllocationOrder(st: PluginState, b: SubBlock, events: seq<NoteEvent>, audio: AudioPath)
    requires b.first <= b.last <= |events|
    requires AllocationOrdered(st.slots, st.counter) && st.counter + (b.last - b.first) < U64_LIMIT
    ensures var r := RunBlock(st, b, events, audio);
      AllocationOrdered(r.slots, r.counter) && st.counter <= r.counter <= st.counter + (b.last - b.first)
  {
    DispatchRangeKeepsAllocationOrder(st, events, b.first, b.last);
    var d := DispatchRange(st, events, b.first, b.last);
    var rendered := Render(d.slots, b.start, audio);
    assert AllocationOrdered(rendered, d.counter);
  }

  /** Event ranges of consecutive sub-blocks follow one another from `k`. */
  ghost predicate Chained(blocks: seq<SubBlock>, k: nat, m: nat)
  {
    && WellFormed(blocks, m)
    && (forall i, j :: 0 <= i && j == i + 1 && j < |blocks| ==> blocks[j].first == blocks[i].last)
    && (|blocks| > 0 ==> blocks[0].first == k)
  }

  /** Over a schedule, the internal ids of live voices stay distinct and below
      the counter, provided the counter cannot wrap on these events; the
      counter advances by at most one per dispatched event. */
  lemma {:induction false} RunKeepsAllocationOrder(st: PluginState, blocks: seq<SubBlock>, k: nat, events: seq<NoteEvent>, audio: AudioPath)
    requires Chained(blocks, k, |events|) && k <= |events|
    requires AllocationOrdered(st.slots, st.counter) && st.counter + (|events| - k) < U64_LIMIT
    ensures var r := Run(st, blocks, events, audio);
      AllocationOrdered(r.slots, r.counter) && st.counter <= r.counter <= st.counter + (Consumed(blocks, k) - k)
    decreases |blocks|
  {
    if blocks != [] {
      var b := blocks[0];
      RunBlockKeepsAllocationOrder(st, b, events, audio);
      var next := RunBlock(st, b, events, audio);
      var rest := blocks[1..];
      assert Chained(rest, b.last, |events|) by {
        forall i, j | 0 <= i && j == i + 1 && j < |rest|
          ensures rest[j].first == rest[i].last
        {
          assert rest[j] == blocks[j + 1] && rest[i] == blocks[i + 1];
        }
        if |rest| > 0 {
          assert rest[0] == blocks[1];
        }
      }
      RunKeepsAllocationOrder(next, rest, b.last, events, audio);
      if rest != [] {
        assert rest[|rest| - 1] == blocks[|blocks| - 1];
      }
    }
  }

  /** Over one buffer, as long as the counter cannot wrap on its events. */
  lemma ProcessKeepsAllocationOrder(st: PluginState, n: nat, events: seq<NoteEvent>, audio: AudioPath)
    requires AllocationOrdered(st.slots, st.counter) && st.counter + |events| < U64_LIMIT
    ensures AllocationOrdered(ProcessBuffer(st, n, events, audio).slots, ProcessBuffer(st, n, events, audio).counter)
  {
    var blocks := Blocks(n, Timings(events), 0, 0);
    BlocksTile(n, Timings(events), 0, 0);
    RunFromFollowsSchedule(st, n, events, 0, 0, audio);
    RunKeepsAllocationOrder(st, blocks, 0, events, audio);
  }
}
