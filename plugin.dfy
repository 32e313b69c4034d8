/**
 The plugin object and the host context it talks to during `process`. The
 methods keep the source's loops over the voice array and are proved against
 the pool, schedule and engine functions.
 */
module Plugin {
  import opened Types
  import opened Pool
  import opened Schedule
  import opened Engine

  /** The host side of a `process` call: the events of the buffer in delivery
      order, how many of them `next_event` has handed out, and the
      notifications sent back. */
  class HostContext {
    const events: seq<NoteEvent>
    var cursor: nat
    var sent: seq<Terminated>

    ghost predicate Valid()
      reads this
    {
      cursor <= |events|
    }

    /** The events not yet handed out. */
    ghost function Pending(): seq<NoteEvent>
      reads this
      requires Valid()
    {
      events[cursor..]
    }

    constructor (events: seq<NoteEvent>)
      ensures Valid() && this.events == events && cursor == 0 && sent == []
    {
      this.events := events;
      cursor := 0;
      sent := [];
    }

    /** `context.next_event()`: the next event of the queue, if any. */
    method NextEvent() returns (e: Option<NoteEvent>)
      requires Valid()
      modifies this`cursor
      ensures Valid()
      ensures old(cursor) < |events| ==> e == Some(events[old(cursor)]) && cursor == old(cursor) + 1
      ensures old(cursor) == |events| ==> e == None && cursor == old(cursor)
    {
      if cursor < |events| {
        e := Some(events[cursor]);
        cursor := cursor + 1;
      } else {
        e := None;
      }
    }

    /** `context.send_event(NoteEvent::VoiceTerminated { .. })`. */
    method SendEvent(t: Terminated)
      modifies this`sent
      ensures sent == old(sent) + [t]
    {
      sent := sent + [t];
    }
  }

  /** What a display cell shows for band `j` of a slot: the band's frequency
      for a live voice, nothing for an empty slot. */
  function FrequencyShown(slot: Slot, j: nat): Option<real>
    requires j < NUM_FILTERS
  {
    if slot.Some? then Some(slot.value.filters[j].frequency) else None
  }

  function CoefficientsShown(slot: Slot, j: nat): Option<Coefficients>
    requires j < NUM_FILTERS
  {
    if slot.Some? then Some(slot.value.filters[j].coefficients) else None
  }

  /** Dropping `j` elements from the suffix at `base` leaves the suffix at `base + j`. */
  lemma SuffixOfSuffix<T>(xs: seq<T>, base: nat, j: nat)
    requires base + j <= |xs|
    ensures xs[base..][j..] == xs[base + j..]
  {
  }

  /** The events of `events[base..]` left after the buffer are those after
      the cursor, once the cursor stands past event `k` of that suffix. */
  lemma PendingAfterIsRest(events: seq<NoteEvent>, base: nat, k: nat, n: nat)
    requires base <= |events| && k <= |events| - base
    requires k == FinalEvent(n, Timings(events[base..]), 0, 0)
    ensures events[base + Min(k + 1, |events| - base)..] == PendingAfter(events[base..], n)
  {
    var input := events[base..];
    assert |input| == |events| - base;
    if k < |input| {
      assert PendingAfter(input, n) == input[k + 1..];
      SuffixOfSuffix(events, base, k + 1);
    } else {
      assert PendingAfter(input, n) == [];
    }
  }

  class ScaleColorizr {
    const voices: array<Slot>
    var nextInternalVoiceId: U64
    const frequencyDisplay: array2<Option<real>>
    const biquadDisplay: array2<Option<Coefficients>>

    ghost predicate Valid()
      reads this
    {
      && voices.Length == NUM_VOICES
      && frequencyDisplay.Length0 == NUM_VOICES && frequencyDisplay.Length1 == NUM_FILTERS
      && biquadDisplay.Length0 == NUM_VOICES && biquadDisplay.Length1 == NUM_FILTERS
    }

    /** The state the engine functions describe. */
    ghost function Current(ctx: HostContext): PluginState
      reads this, voices, ctx
      requires Valid()
    {
      PluginState(voices[..], nextInternalVoiceId, ctx.sent)
    }

    /** Every display cell mirrors the corresponding band of the pool. */
    ghost predicate FrequenciesPublished()
      reads this, voices, frequencyDisplay
      requires Valid()
    {
      forall i, j :: 0 <= i < NUM_VOICES && 0 <= j < NUM_FILTERS ==>
        frequencyDisplay[i, j] == FrequencyShown(voices[i], j)
    }

    ghost predicate CoefficientsPublished()
      reads this, voices, biquadDisplay
      requires Valid()
    {
      forall i, j :: 0 <= i < NUM_VOICES && 0 <= j < NUM_FILTERS ==>
        biquadDisplay[i, j] == CoefficientsShown(voices[i], j)
    }

    /** `Default`: no voices, the counter at zero, every display cell empty. */
    constructor ()
      ensures Valid() && fresh(voices) && fresh(frequencyDisplay) && fresh(biquadDisplay)
      ensures voices[..] == EmptyPool() && nextInternalVoiceId == 0
      ensures forall i, j :: 0 <= i < NUM_VOICES && 0 <= j < NUM_FILTERS ==>
        frequencyDisplay[i, j].None? && biquadDisplay[i, j].None?
    {
      voices := new Slot[NUM_VOICES](_ => None);
      nextInternalVoiceId := 0;
      frequencyDisplay := new Option<real>[NUM_VOICES, NUM_FILTERS]((_, _) => None);
      biquadDisplay := new Option<Coefficients>[NUM_VOICES, NUM_FILTERS]((_, _) => None);
      new;
      assert voices[..] == EmptyPool();
    }

    /** `reset`: every slot is emptied; the counter is kept. */
    method Reset()
      requires Valid()
      modifies voices
      ensures voices[..] == EmptyPool()
    {
      for i := 0 to voices.Length
        invariant forall k :: 0 <= k < i ==> voices[k].None?
      {
        if voices[i].Some? {
          voices[i] := None;
        }
      }
      assert voices[..] == EmptyPool();
    }

    /** `get_voice_idx`: the first slot holding a voice with this id. */
    method GetVoiceIdx(voiceId: I32) returns (r: Option<nat>)
      requires Valid()
      ensures r == FindVoice(voices[..], voiceId)
    {
      var i := 0;
      while i < voices.Length
        invariant 0 <= i <= voices.Length
        invariant forall j :: 0 <= j < i ==> !(voices[j].Some? && voices[j].value.voiceId == voiceId)
      {
        if voices[i].Some? && voices[i].value.voiceId == voiceId {
          return Some(i);
        }
        i := i + 1;
      }
      return None;
    }

    /** `start_voice`: fills the first free slot, or steals the oldest voice and
        tells the host; returns the slot used. */
    method StartVoice(ctx: HostContext, sampleOffset: U32, voiceId: Option<I32>, channel: U8, note: U8)
      returns (idx: nat)
      requires Valid()
      modifies this`nextInternalVoiceId, voices, ctx`sent
      ensures Valid()
      ensures var r := Start(old(voices[..]), old(nextInternalVoiceId), sampleOffset, voiceId, channel, note);
        && voices[..] == r.slots && idx == r.index
        && nextInternalVoiceId == r.counter && ctx.sent == old(ctx.sent) + r.emitted
    {
      ghost var s: Slots := voices[..];
      var newVoice := NewVoice(voiceId, channel, note, nextInternalVoiceId);
      nextInternalVoiceId := WrappingIncrement(nextInternalVoiceId);

      var i := 0;
      while i < voices.Length && voices[i].Some?
        invariant 0 <= i <= voices.Length
        invariant forall j :: 0 <= j < i ==> voices[j].Some?
      {
        i := i + 1;
      }
      if i < voices.Length {
        FirstFreeIs(s, i);
        voices[i] := Some(newVoice);
        idx := i;
      } else {
        assert AllLive(s);
        var oldest := 0;
        for k := 1 to voices.Length
          invariant oldest < k
          invariant forall j :: 0 <= j < k ==> voices[oldest].value.internalVoiceId <= voices[j].value.internalVoiceId
          invariant forall j :: 0 <= j < oldest ==> voices[j].value.internalVoiceId > voices[oldest].value.internalVoiceId
        {
          if voices[k].value.internalVoiceId < voices[oldest].value.internalVoiceId {
            oldest := k;
          }
        }
        OldestIs(s, oldest);
        assert FirstFree(s).None?;
        var stolen := voices[oldest].value;
        ctx.SendEvent(Terminated(sampleOffset, stolen.voiceId, stolen.channel, stolen.note));
        voices[oldest] := Some(newVoice);
        idx := oldest;
      }
    }

    /** `start_release_for_voices`: marks the selected voices as releasing,
        stopping at the first hit when a voice id is given. The envelope's new
        target is part of the audio path. */
    method StartReleaseForVoices(voiceId: Option<I32>, channel: U8, note: U8)
      requires Valid()
      modifies voices
      ensures voices[..] == Release(old(voices[..]), voiceId, channel, note)
    {
      ghost var s: Slots := voices[..];
      var i := 0;
      while i < voices.Length
        invariant 0 <= i <= voices.Length
        invariant forall k :: 0 <= k < i ==>
          voices[k] == if Selected(s, voiceId, channel, note, k) then Released(s[k]) else s[k]
        invariant forall k :: i <= k < voices.Length ==> voices[k] == s[k]
        invariant voiceId.Some? ==> forall k :: 0 <= k < i ==> !SlotMatches(s[k], voiceId, channel, note)
      {
        if voices[i].Some? && Matches(voices[i].value, voiceId, channel, note) {
          voices[i] := Some(voices[i].value.(releasing := true));
          if voiceId.Some? {
            forall k | i < k < NUM_VOICES
              ensures !Selected(s, voiceId, channel, note, k)
            {
              assert SlotMatches(s[i], voiceId, channel, note);
            }
            assert voices[..] == Release(s, voiceId, channel, note);
            return;
          }
        }
        i := i + 1;
      }
      assert voices[..] == Release(s, voiceId, channel, note);
    }

    /** `choke_voices`: empties the selected slots at once, sending one
        notification each, stopping at the first hit when a voice id is given. */
    method ChokeVoices(ctx: HostContext, sampleOffset: U32, voiceId: Option<I32>, channel: U8, note: U8)
      requires Valid()
      modifies voices, ctx`sent
      ensures var r := Pool.Choke(old(voices[..]), sampleOffset, voiceId, channel, note);
        voices[..] == r.slots && ctx.sent == old(ctx.sent) + r.emitted
    {
      ghost var s: Slots := voices[..];
      var i := 0;
      while i < voices.Length
        invariant 0 <= i <= voices.Length
        invariant forall k :: 0 <= k < i ==>
          voices[k] == if Selected(s, voiceId, channel, note, k) then None else s[k]
        invariant forall k :: i <= k < voices.Length ==> voices[k] == s[k]
        invariant voiceId.Some? ==> forall k :: 0 <= k < i ==> !SlotMatches(s[k], voiceId, channel, note)
        invariant ctx.sent == old(ctx.sent) + ChokeEvents(s, sampleOffset, voiceId, channel, note, i)
      {
        if voices[i].Some? && Matches(voices[i].value, voiceId, channel, note) {
          assert Selected(s, voiceId, channel, note, i);
          ctx.SendEvent(Terminated(sampleOffset, voices[i].value.voiceId, channel, note));
          voices[i] := None;
          if voiceId.Some? {
            ChokeStopsAtFirst(s, sampleOffset, voiceId, channel, note, i);
            assert voices[..] == Pool.Choke(s, sampleOffset, voiceId, channel, note).slots;
            return;
          }
        } else {
          assert !Selected(s, voiceId, channel, note, i);
        }
        i := i + 1;
      }
      assert voices[..] == Pool.Choke(s, sampleOffset, voiceId, channel, note).slots;
    }

    /** One arm of the `match event` in `process`. A note-on also gives the new
        voice a fresh envelope that starts at 0.0. */
    method HandleEvent(ctx: HostContext, ev: NoteEvent)
      requires Valid()
      modifies this`nextInternalVoiceId, voices, ctx`sent
      ensures Valid() && Current(ctx) == Dispatch(old(Current(ctx)), ev)
    {
      match ev {
        case NoteOn(timing, voiceId, channel, note) =>
          var idx := StartVoice(ctx, timing, voiceId, channel, note);
          voices[idx] := Some(voices[idx].value.(envelopeAtZero := true));
        case NoteOff(_, voiceId, channel, note) =>
          StartReleaseForVoices(voiceId, channel, note);
        case Choke(timing, voiceId, channel, note) =>
          ChokeVoices(ctx, timing, voiceId, channel, note);
        case Other(_) =>
      }
    }

    /** The per-voice rendering loop of one sub-block: every band of every live
        voice is reassigned and its envelope advanced. */
    method RenderVoices(blockStart: nat, audio: AudioPath)
      requires Valid()
      modifies voices
      ensures voices[..] == Render(old(voices[..]), blockStart, audio)
    {
      ghost var s: Slots := voices[..];
      for i := 0 to voices.Length
        invariant forall k :: 0 <= k < i ==> voices[k] == Render(s, blockStart, audio)[k]
        invariant forall k :: i <= k < voices.Length ==> voices[k] == s[k]
      {
        if voices[i].Some? {
          var v := voices[i].value;
          var filters := v.filters;
          for j := 0 to NUM_FILTERS
            invariant |filters| == NUM_FILTERS
            invariant forall b :: 0 <= b < j ==> filters[b] == audio.band(blockStart, i, b)
          {
            filters := filters[j := audio.band(blockStart, i, j)];
          }
          assert filters == seq(NUM_FILTERS, (j: nat) => audio.band(blockStart, i, j));
          voices[i] := Some(v.(filters := filters, envelopeAtZero := audio.envelopeAtZero(blockStart, i)));
        }
      }
      assert voices[..] == Render(s, blockStart, audio);
    }

    /** The end-of-block scan: finished voices are removed, each with a
        notification stamped `block_end as u32`. */
    method RetireFinishedVoices(ctx: HostContext, blockEnd: nat)
      requires Valid()
      modifies voices, ctx`sent
      ensures var r := Retire(old(voices[..]), ToU32(blockEnd));
        voices[..] == r.slots && ctx.sent == old(ctx.sent) + r.emitted
    {
      ghost var s: Slots := voices[..];
      var timing := ToU32(blockEnd);
      for i := 0 to voices.Length
        invariant forall k :: 0 <= k < i ==> voices[k] == if Finished(s[k]) then None else s[k]
        invariant forall k :: i <= k < voices.Length ==> voices[k] == s[k]
        invariant ctx.sent == old(ctx.sent) + RetireEvents(s, timing, i)
      {
        if voices[i].Some? && voices[i].value.releasing && voices[i].value.envelopeAtZero {
          var v := voices[i].value;
          ctx.SendEvent(Terminated(timing, v.voiceId, v.channel, v.note));
          voices[i] := None;
        }
      }
      assert voices[..] == Retire(s, timing).slots;
    }

    /** The first display loop: band frequencies of live voices, `None` for
        empty slots. */
    method PublishFrequencies()
      requires Valid()
      modifies frequencyDisplay
      ensures FrequenciesPublished()
    {
      for i := 0 to NUM_VOICES
        invariant forall a, b :: 0 <= a < i && 0 <= b < NUM_FILTERS ==>
          frequencyDisplay[a, b] == FrequencyShown(voices[a], b)
      {
        for j := 0 to NUM_FILTERS
          invariant forall a, b :: 0 <= a < i && 0 <= b < NUM_FILTERS ==>
            frequencyDisplay[a, b] == FrequencyShown(voices[a], b)
          invariant forall b :: 0 <= b < j ==> frequencyDisplay[i, b] == FrequencyShown(voices[i], b)
        {
          if voices[i].Some? {
            frequencyDisplay[i, j] := Some(voices[i].value.filters[j].frequency);
          } else {
            frequencyDisplay[i, j] := None;
          }
        }
      }
    }

    /** The second display loop: band coefficients of live voices. */
    method PublishCoefficients()
      requires Valid()
      modifies biquadDisplay
      ensures CoefficientsPublished()
    {
      for i := 0 to NUM_VOICES
        invariant forall a, b :: 0 <= a < i && 0 <= b < NUM_FILTERS ==>
          biquadDisplay[a, b] == CoefficientsShown(voices[a], b)
      {
        for j := 0 to NUM_FILTERS
          invariant forall a, b :: 0 <= a < i && 0 <= b < NUM_FILTERS ==>
            biquadDisplay[a, b] == CoefficientsShown(voices[a], b)
          invariant forall b :: 0 <= b < j ==> biquadDisplay[i, b] == CoefficientsShown(voices[i], b)
        {
          if voices[i].Some? {
            biquadDisplay[i, j] := Some(voices[i].value.filters[j].coefficients);
          } else {
            biquadDisplay[i, j] := None;
          }
        }
      }
    }

    /** The `'events` loop without its final cut: dispatches, in order, the
        run of due events starting from the waiting one, and leaves the first
        one that is not due at `blockStart` in `next`. The queue handed out so far is `input[..k0 + 1]`, where
        `input` are the events from position `base` of the host's list. */
    method DispatchDueEvents(ctx: HostContext, nextEvent: Option<NoteEvent>, blockStart: nat,
                             ghost input: seq<NoteEvent>, ghost base: nat, ghost k0: nat)
      returns (next: Option<NoteEvent>, ghost k: nat)
      requires Valid() && ctx.Valid() && k0 <= |input|
      requires base <= |ctx.events| && input == ctx.events[base..]
      requires nextEvent == if k0 < |input| then Some(input[k0]) else None
      requires ctx.cursor == base + Min(k0 + 1, |input|)
      modifies this`nextInternalVoiceId, voices, ctx`cursor, ctx`sent
      ensures Valid() && ctx.Valid()
      ensures k == DrainEnd(Timings(input), k0, blockStart)
      ensures next == if k < |input| then Some(input[k]) else None
      ensures ctx.cursor == base + Min(k + 1, |input|)
      ensures Current(ctx) == DispatchRange(old(Current(ctx)), input, k0, k)
    {
      ghost var ts := Timings(input);
      ghost var j := DrainEnd(ts, k0, blockStart);
      ghost var goal := DispatchRange(Current(ctx), input, k0, j);
      next := nextEvent;
      k := k0;
      while next.Some? && next.value.timing <= blockStart
        invariant Valid() && ctx.Valid()
        invariant k0 <= k <= j
        invariant next == if k < |input| then Some(input[k]) else None
        invariant ctx.cursor == base + Min(k + 1, |input|)
        invariant DispatchRange(Current(ctx), input, k, j) == goal
        decreases j - k
      {
        HandleEvent(ctx, next.value);
        next := ctx.NextEvent();
        k := k + 1;
      }
    }

    /** One pass of the `while block_start < num_samples` loop: the due events,
        the cut, rendering and retirement of the sub-block at `blockStart`. It
        advances the loop by exactly one step of `RunFrom`. */
    method ProcessSubBlock(ctx: HostContext, numSamples: nat, blockStart: nat, nextEvent: Option<NoteEvent>,
                           audio: AudioPath, ghost input: seq<NoteEvent>, ghost base: nat, ghost k0: nat)
      returns (blockEnd: nat, next: Option<NoteEvent>, ghost k: nat)
      requires Valid() && ctx.Valid() && blockStart < numSamples && k0 <= |input|
      requires base <= |ctx.events| && input == ctx.events[base..]
      requires nextEvent == if k0 < |input| then Some(input[k0]) else None
      requires ctx.cursor == base + Min(k0 + 1, |input|)
      modifies this`nextInternalVoiceId, voices, ctx`cursor, ctx`sent
      ensures Valid() && ctx.Valid()
      ensures blockStart < blockEnd <= numSamples && k <= |input|
      ensures next == if k < |input| then Some(input[k]) else None
      ensures ctx.cursor == base + Min(k + 1, |input|)
      ensures RunFrom(Current(ctx), numSamples, input, blockEnd, k, audio)
           == RunFrom(old(Current(ctx)), numSamples, input, blockStart, k0, audio)
      ensures FinalEvent(numSamples, Timings(input), blockEnd, k) == FinalEvent(numSamples, Timings(input), blockStart, k0)
      ensures k == DrainEnd(Timings(input), k0, blockStart)
      ensures blockEnd == CutEnd(numSamples, Timings(input), blockStart, k)
      ensures Current(ctx) == RunBlock(old(Current(ctx)), SubBlock(blockStart, blockEnd, k0, k), input, audio)
    {
      ghost var ts := Timings(input);
      ghost var stBlock := Current(ctx);
      blockEnd := Min(blockStart + MAX_BLOCK_SIZE, numSamples);
      next, k := DispatchDueEvents(ctx, nextEvent, blockStart, input, base, k0);
      if next.Some? && next.value.timing < blockEnd {
        blockEnd := next.value.timing;
      }
      assert blockEnd == CutEnd(numSamples, ts, blockStart, k);

      RenderVoices(blockStart, audio);
      RetireFinishedVoices(ctx, blockEnd);

      assert Current(ctx) == RunBlock(stBlock, SubBlock(blockStart, blockEnd, k0, k), input, audio);
    }

    /** `process` for a buffer of `numSamples` samples: the block loop, then
        the display stores when the editor is open. */
    method Process(ctx: HostContext, numSamples: nat, editorOpen: bool, audio: AudioPath)
      requires Valid() && ctx.Valid()
      modifies this`nextInternalVoiceId, voices, ctx`cursor, ctx`sent, frequencyDisplay, biquadDisplay
      ensures Valid() && ctx.Valid()
      ensures Current(ctx) == ProcessBuffer(old(Current(ctx)), numSamples, old(ctx.Pending()), audio)
      ensures ctx.Pending() == PendingAfter(old(ctx.Pending()), numSamples)
      ensures editorOpen ==> FrequenciesPublished() && CoefficientsPublished()
      ensures !editorOpen ==> unchanged(frequencyDisplay) && unchanged(biquadDisplay)
    {
      ghost var base := ctx.cursor;
      ghost var input := ctx.Pending();
      ghost var ts := Timings(input);
      ghost var goal := RunFrom(Current(ctx), numSamples, input, 0, 0, audio);
      ghost var last := FinalEvent(numSamples, ts, 0, 0);
      ghost var k: nat := 0;

      var nextEvent := ctx.NextEvent();
      var blockStart := 0;
      while blockStart < numSamples
        invariant Valid() && ctx.Valid()
        invariant k <= |input|
        invariant nextEvent == if k < |input| then Some(input[k]) else None
        invariant ctx.cursor == base + Min(k + 1, |input|)
        invariant RunFrom(Current(ctx), numSamples, input, blockStart, k, audio) == goal
        invariant FinalEvent(numSamples, ts, blockStart, k) == last
        invariant unchanged(frequencyDisplay) && unchanged(biquadDisplay)
        decreases numSamples - blockStart
      {
        blockStart, nextEvent, k := ProcessSubBlock(ctx, numSamples, blockStart, nextEvent, audio, input, base, k);
      }

      if editorOpen {
        PublishFrequencies();
        PublishCoefficients();
      }
      PendingAfterIsRest(ctx.events, base, k, numSamples);
    }
  }
}
