/**
 The voice pool's operations as functions of the slot array: what `start_voice`,
 `start_release_for_voices`, `choke_voices`, the end-of-block retirement scan and
 `get_voice_idx` compute. The plugin's methods are proved against these.
 */
module Pool {
  import opened Types
  import opened VoiceId

  /** The addressing rule shared by note-off and choke: the explicit voice id
      matches, or else the (channel, note) pair matches. */
  predicate Matches(v: Voice, voiceId: Option<I32>, channel: U8, note: U8)
  {
    voiceId == Some(v.voiceId) || (channel == v.channel && note == v.note)
  }

  predicate SlotMatches(slot: Slot, voiceId: Option<I32>, channel: U8, note: U8)
  {
    slot.Some? && Matches(slot.value, voiceId, channel, note)
  }

  /** Slot `k` is acted on by a note-off or choke: it matches, and, when the event
      names an explicit voice id, no earlier slot matches (the scan stops at its
      first hit). */
  predicate Selected(s: seq<Slot>, voiceId: Option<I32>, channel: U8, note: U8, k: nat)
    requires k < |s|
  {
    && SlotMatches(s[k], voiceId, channel, note)
    && (voiceId.Some? ==> forall j :: 0 <= j < k ==> !SlotMatches(s[j], voiceId, channel, note))
  }

  /** `voices.iter().position(|voice| voice.is_none())`. */
  function FirstFree(s: seq<Slot>): (r: Option<nat>)
    ensures r.Some? ==> r.value < |s| && s[r.value].None?
    ensures r.Some? ==> forall j :: 0 <= j < r.value ==> s[j].Some?
    ensures r.None? <==> forall j :: 0 <= j < |s| ==> s[j].Some?
  {
    if |s| == 0 then None
    else if s[0].None? then Some(0)
    else match FirstFree(s[1..])
      case None => None
      case Some(i) => Some(i + 1)
  }

  /** `voices.iter().position(|v| matches!(v, Some(v) if v.voice_id == voice_id))`. */
  function FindVoice(s: seq<Slot>, voiceId: I32): (r: Option<nat>)
    ensures r.Some? ==> r.value < |s| && s[r.value].Some? && s[r.value].value.voiceId == voiceId
    ensures r.Some? ==> forall j :: 0 <= j < r.value ==> !(s[j].Some? && s[j].value.voiceId == voiceId)
    ensures r.None? <==> forall j :: 0 <= j < |s| ==> !(s[j].Some? && s[j].value.voiceId == voiceId)
  {
    if |s| == 0 then None
    else if s[0].Some? && s[0].value.voiceId == voiceId then Some(0)
    else match FindVoice(s[1..], voiceId)
      case None => None
      case Some(i) => Some(i + 1)
  }

  /** A slot that is free, with every slot before it taken, is the first free one. */
  lemma FirstFreeIs(s: seq<Slot>, i: nat)
    requires i < |s| && s[i].None?
    requires forall j :: 0 <= j < i ==> s[j].Some?
    ensures FirstFree(s) == Some(i)
  {
  }

  predicate AllLive(s: seq<Slot>)
  {
    forall j :: 0 <= j < |s| ==> s[j].Some?
  }

  /** `min_by_key(internal_voice_id)` over a full pool: the slot holding the
      smallest internal id, the first one on ties. */
  function Oldest(s: seq<Slot>): (r: nat)
    requires |s| > 0 && AllLive(s)
    ensures r < |s|
    ensures forall j :: 0 <= j < |s| ==> s[r].value.internalVoiceId <= s[j].value.internalVoiceId
    ensures forall j :: 0 <= j < r ==> s[j].value.internalVoiceId > s[r].value.internalVoiceId
  {
    if |s| == 1 then 0
    else
      var t := Oldest(s[1..]) + 1;
      if s[0].value.internalVoiceId <= s[t].value.internalVoiceId then 0 else t
  }

  /** A slot with the least key, and strictly less than every earlier one, is `Oldest`. */
  lemma OldestIs(s: seq<Slot>, o: nat)
    requires |s| > 0 && AllLive(s) && o < |s|
    requires forall j :: 0 <= j < |s| ==> s[o].value.internalVoiceId <= s[j].value.internalVoiceId
    requires forall j :: 0 <= j < o ==> s[j].value.internalVoiceId > s[o].value.internalVoiceId
    ensures Oldest(s) == o
  {
  }

  /** The voice `start_voice` builds: the host's id or the fallback id, the
      counter's current value as internal id, not releasing, pass-through
      filters, and an envelope that starts at 0.0. */
  function NewVoice(voiceId: Option<I32>, channel: U8, note: U8, internalId: U64): (v: Voice)
    ensures v.voiceId == (if voiceId.Some? then voiceId.value else note + channel * 0x1_0000)
    ensures v.channel == channel && v.note == note && v.internalVoiceId == internalId
    ensures !v.releasing && v.envelopeAtZero
  {
    var id := if voiceId.Some? then voiceId.value else FallbackVoiceId(note, channel);
    Voice(id, channel, note, internalId, DefaultFilters(), false, true)
  }

  datatype Started = Started(slots: Slots, index: nat, counter: U64, emitted: seq<Terminated>)

  /** `start_voice`: the first free slot, or else the oldest voice stolen with a
      termination notice at `offset`; the counter advances by one, wrapping. */
  function Start(s: Slots, counter: U64, offset: U32, voiceId: Option<I32>, channel: U8, note: U8): (r: Started)
    ensures r.index < NUM_VOICES
    ensures r.slots == s[r.index := Some(NewVoice(voiceId, channel, note, counter))]
    ensures r.counter == WrappingIncrement(counter)
    ensures !AllLive(s) ==>
      && s[r.index].None?
      && (forall j :: 0 <= j < r.index ==> s[j].Some?)
      && r.emitted == []
    ensures AllLive(s) ==>
      && (forall j :: 0 <= j < |s| ==> s[r.index].value.internalVoiceId <= s[j].value.internalVoiceId)
      && (forall j :: 0 <= j < r.index ==> s[j].value.internalVoiceId > s[r.index].value.internalVoiceId)
      && r.emitted == [Terminated(offset, s[r.index].value.voiceId, s[r.index].value.channel, s[r.index].value.note)]
  {
    var v := NewVoice(voiceId, channel, note, counter);
    match FirstFree(s)
    case Some(i) => Started(s[i := Some(v)], i, WrappingIncrement(counter), [])
    case None =>
      var o := Oldest(s);
      var stolen := s[o].value;
      Started(s[o := Some(v)], o, WrappingIncrement(counter),
              [Terminated(offset, stolen.voiceId, stolen.channel, stolen.note)])
  }

  /** The effect of a note-off on one slot. */
  function Released(slot: Slot): Slot
  {
    match slot
    case None => None
    case Some(v) => Some(v.(releasing := true))
  }

  /** `start_release_for_voices`: every selected slot starts releasing. */
  function Release(s: Slots, voiceId: Option<I32>, channel: U8, note: U8): (r: Slots)
    ensures forall k :: 0 <= k < NUM_VOICES ==> (r[k].Some? <==> s[k].Some?)
  {
    seq(NUM_VOICES, k requires 0 <= k < NUM_VOICES =>
      if Selected(s, voiceId, channel, note, k) then Released(s[k]) else s[k])
  }

  /** The slots a scan empties and the notifications it sends, in slot order. */
  datatype Cleared = Cleared(slots: Slots, emitted: seq<Terminated>)

  /** Notifications `choke_voices` sends for the selected slots below `n`: the
      matched voice's own id, but the event's channel and note. */
  function ChokeEvents(s: Slots, offset: U32, voiceId: Option<I32>, channel: U8, note: U8, n: nat): seq<Terminated>
    requires n <= NUM_VOICES
  {
    if n == 0 then []
    else
      ChokeEvents(s, offset, voiceId, channel, note, n - 1) +
      (if Selected(s, voiceId, channel, note, n - 1)
       then [Terminated(offset, s[n - 1].value.voiceId, channel, note)]
       else [])
  }

  /** `choke_voices`: every selected slot is emptied at once, with a notice. */
  function Choke(s: Slots, offset: U32, voiceId: Option<I32>, channel: U8, note: U8): (r: Cleared)
    ensures forall k :: 0 <= k < NUM_VOICES && r.slots[k].Some? ==> r.slots[k] == s[k]
  {
    Cleared(
      seq(NUM_VOICES, k requires 0 <= k < NUM_VOICES =>
        if Selected(s, voiceId, channel, note, k) then None else s[k]),
      ChokeEvents(s, offset, voiceId, channel, note, NUM_VOICES))
  }

  /** A voice whose release has run out: releasing, with its envelope at 0.0. */
  predicate Finished(slot: Slot)
  {
    slot.Some? && slot.value.releasing && slot.value.envelopeAtZero
  }

  /** Notifications of the end-of-block scan for finished slots below `n`,
      carrying the voice's own id, channel and note. */
  function RetireEvents(s: Slots, timing: U32, n: nat): seq<Terminated>
    requires n <= NUM_VOICES
  {
    if n == 0 then []
    else
      RetireEvents(s, timing, n - 1) +
      (if Finished(s[n - 1])
       then [Terminated(timing, s[n - 1].value.voiceId, s[n - 1].value.channel, s[n - 1].value.note)]
       else [])
  }

  /** The end-of-block scan: finished voices are removed. */
  function Retire(s: Slots, timing: U32): (r: Cleared)
    ensures forall k :: 0 <= k < NUM_VOICES ==> !Finished(r.slots[k])
  {
    Cleared(
      seq(NUM_VOICES, k requires 0 <= k < NUM_VOICES => if Finished(s[k]) then None else s[k]),
      RetireEvents(s, timing, NUM_VOICES))
  }

  /** Every slot emptied, as `reset` leaves the pool. */
  function EmptyPool(): (s: Slots)
    ensures forall k :: 0 <= k < NUM_VOICES ==> s[k].None?
  {
    seq(NUM_VOICES, _ => None)
  }

  // ---------------------------------------------------------------------------
  // Properties of the operations
  // ---------------------------------------------------------------------------

  /** With an explicit voice id at most one slot is selected. */
  lemma ExplicitIdSelectsOne(s: Slots, voiceId: Option<I32>, channel: U8, note: U8, a: nat, b: nat)
    requires voiceId.Some? && a < NUM_VOICES && b < NUM_VOICES
    requires Selected(s, voiceId, channel, note, a) && Selected(s, voiceId, channel, note, b)
    ensures a == b
  {
  }

  /** Without an explicit voice id, exactly the slots whose (channel, note) match are selected. */
  lemma UnlabelledSelectsAllMatches(s: Slots, channel: U8, note: U8, k: nat)
    requires k < NUM_VOICES
    ensures Selected(s, None, channel, note, k) <==> s[k].Some? && s[k].value.channel == channel && s[k].value.note == note
  {
  }

  /** The matching rule's explicit-id branch does not take precedence: a
      note-off naming the id of a later voice releases an earlier voice that
      merely shares its channel and note, and leaves the named voice alone. */
  lemma ExplicitIdCanHitAnotherVoice()
    ensures
      var a := Voice(1, 0, 60, 0, DefaultFilters(), false, false);
      var b := Voice(2, 0, 60, 1, DefaultFilters(), false, false);
      var s: Slots := [Some(a), Some(b)] + seq(NUM_VOICES - 2, _ => None);
      var r := Release(s, Some(2), 0, 60);
      r[0] == Some(a.(releasing := true)) && r[1] == Some(b)
  {
    var a := Voice(1, 0, 60, 0, DefaultFilters(), false, false);
    var b := Voice(2, 0, 60, 1, DefaultFilters(), false, false);
    var s: Slots := [Some(a), Some(b)] + seq(NUM_VOICES - 2, _ => None);
    assert Selected(s, Some(2), 0, 60, 0);
    assert !Selected(s, Some(2), 0, 60, 1) by { assert SlotMatches(s[0], Some(2), 0, 60); }
  }

  /** A note-off changes only the `releasing` flag of the selected slots, at most
      one of them when an id is given, and nothing when nothing matches. */
  lemma ReleaseChangesOnlySelected(s: Slots, voiceId: Option<I32>, channel: U8, note: U8)
    ensures var r := Release(s, voiceId, channel, note);
      forall k :: 0 <= k < NUM_VOICES && r[k] != s[k] ==>
        Selected(s, voiceId, channel, note, k) && r[k] == Some(s[k].value.(releasing := true))
    ensures (forall k :: 0 <= k < NUM_VOICES ==> !SlotMatches(s[k], voiceId, channel, note)) ==>
      Release(s, voiceId, channel, note) == s
    ensures var r := Release(s, voiceId, channel, note);
      forall k :: 0 <= k < NUM_VOICES && Selected(s, voiceId, channel, note, k) ==>
        r[k] == Some(s[k].value.(releasing := true))
    ensures var r := Release(s, voiceId, channel, note);
      voiceId.None? ==> forall k :: 0 <= k < NUM_VOICES && s[k].Some? && s[k].value.channel == channel && s[k].value.note == note ==>
        r[k] == Some(s[k].value.(releasing := true))
  {
    var r := Release(s, voiceId, channel, note);
    if forall k :: 0 <= k < NUM_VOICES ==> !SlotMatches(s[k], voiceId, channel, note) {
      assert forall k :: 0 <= k < NUM_VOICES ==> r[k] == s[k];
    }
  }

  /** The slots below `n` that a choke selects. */
  ghost function SelectedBelow(s: Slots, voiceId: Option<I32>, channel: U8, note: U8, n: nat): set<nat>
    requires n <= NUM_VOICES
  {
    set k | 0 <= k < n && Selected(s, voiceId, channel, note, k)
  }

  lemma {:induction false} ChokeEventsCount(s: Slots, offset: U32, voiceId: Option<I32>, channel: U8, note: U8, n: nat)
    requires n <= NUM_VOICES
    ensures |ChokeEvents(s, offset, voiceId, channel, note, n)| == |SelectedBelow(s, voiceId, channel, note, n)|
  {
    if n > 0 {
      ChokeEventsCount(s, offset, voiceId, channel, note, n - 1);
      var below := SelectedBelow(s, voiceId, channel, note, n - 1);
      if Selected(s, voiceId, channel, note, n - 1) {
        assert n - 1 !in below;
        assert SelectedBelow(s, voiceId, channel, note, n) == below + {n - 1};
      } else {
        assert SelectedBelow(s, voiceId, channel, note, n) == below;
      }
    }
  }

  /** Slots a scan does not select add no notification. */
  lemma {:induction false} ChokeEventsStable(s: Slots, offset: U32, voiceId: Option<I32>, channel: U8, note: U8, a: nat, b: nat)
    requires a <= b <= NUM_VOICES
    requires forall k :: a <= k < b ==> !Selected(s, voiceId, channel, note, k)
    ensures ChokeEvents(s, offset, voiceId, channel, note, b) == ChokeEvents(s, offset, voiceId, channel, note, a)
    decreases b - a
  {
    if a < b {
      ChokeEventsStable(s, offset, voiceId, channel, note, a, b - 1);
    }
  }

  /** With an explicit identifier nothing after the first matching slot is
      selected, so the notifications end with that slot's. */
  lemma ChokeStopsAtFirst(s: Slots, offset: U32, voiceId: Option<I32>, channel: U8, note: U8, i: nat)
    requires voiceId.Some? && i < NUM_VOICES && SlotMatches(s[i], voiceId, channel, note)
    ensures forall k :: i < k < NUM_VOICES ==> !Selected(s, voiceId, channel, note, k)
    ensures ChokeEvents(s, offset, voiceId, channel, note, NUM_VOICES) == ChokeEvents(s, offset, voiceId, channel, note, i + 1)
  {
    forall k | i < k < NUM_VOICES
      ensures !Selected(s, voiceId, channel, note, k)
    {
      assert SlotMatches(s[i], voiceId, channel, note);
    }
    ChokeEventsStable(s, offset, voiceId, channel, note, i + 1, NUM_VOICES);
  }

  /** Which notifications occur among those for the slots below `n`: each names
      a selected slot's voice with the event's channel and note, and every
      selected slot's notification occurs. */
  lemma {:induction false} ChokeEventsMembers(s: Slots, offset: U32, voiceId: Option<I32>, channel: U8, note: U8, n: nat)
    requires n <= NUM_VOICES
    ensures forall t :: t in ChokeEvents(s, offset, voiceId, channel, note, n) <==>
      exists k :: 0 <= k < n && Selected(s, voiceId, channel, note, k) && t == Terminated(offset, s[k].value.voiceId, channel, note)
  {
    if n > 0 {
      ChokeEventsMembers(s, offset, voiceId, channel, note, n - 1);
    }
  }

  /** The indices below `n` of the slots a choke selects, in ascending order. */
  ghost function SelectedSlots(s: Slots, voiceId: Option<I32>, channel: U8, note: U8, n: nat): seq<nat>
    requires n <= NUM_VOICES
  {
    if n == 0 then []
    else SelectedSlots(s, voiceId, channel, note, n - 1) + (if Selected(s, voiceId, channel, note, n - 1) then [n - 1] else [])
  }

  /** `SelectedSlots` lists every selected slot below `n`, only those, each once
      and in ascending order. */
  lemma {:induction false} SelectedSlotsAscending(s: Slots, voiceId: Option<I32>, channel: U8, note: U8, n: nat)
    requires n <= NUM_VOICES
    ensures forall i :: 0 <= i < |SelectedSlots(s, voiceId, channel, note, n)| ==>
      SelectedSlots(s, voiceId, channel, note, n)[i] < n && Selected(s, voiceId, channel, note, SelectedSlots(s, voiceId, channel, note, n)[i])
    ensures forall i, j :: 0 <= i < j < |SelectedSlots(s, voiceId, channel, note, n)| ==>
      SelectedSlots(s, voiceId, channel, note, n)[i] < SelectedSlots(s, voiceId, channel, note, n)[j]
    ensures forall k :: 0 <= k < n && Selected(s, voiceId, channel, note, k) ==> k in SelectedSlots(s, voiceId, channel, note, n)
  {
    if n > 0 {
      SelectedSlotsAscending(s, voiceId, channel, note, n - 1);
      var q := SelectedSlots(s, voiceId, channel, note, n - 1);
      var p := SelectedSlots(s, voiceId, channel, note, n);
      if Selected(s, voiceId, channel, note, n - 1) {
        assert p == q + [n - 1];
      } else {
        assert p == q;
      }
    }
  }

  /** The notifications for the slots below `n` are exactly one per selected
      slot, in slot order: the i-th names the i-th selected slot's voice with the
      event's channel and note. */
  lemma {:induction false} ChokeEventsInSlotOrder(s: Slots, offset: U32, voiceId: Option<I32>, channel: U8, note: U8, n: nat)
    requires n <= NUM_VOICES
    ensures var p := SelectedSlots(s, voiceId, channel, note, n);
      var e := ChokeEvents(s, offset, voiceId, channel, note, n);
      && |e| == |p|
      && forall i :: 0 <= i < |p| ==>
        p[i] < NUM_VOICES && s[p[i]].Some? && e[i] == Terminated(offset, s[p[i]].value.voiceId, channel, note)
  {
    if n > 0 {
      ChokeEventsInSlotOrder(s, offset, voiceId, channel, note, n - 1);
      SelectedSlotsAscending(s, voiceId, channel, note, n - 1);
    }
  }

  /** A choke empties exactly the selected slots, which without an id are all
      the slots whose channel and note match; it sends one notification per
      emptied slot, in slot order, naming that slot's voice. */
  lemma ChokeEmptiesSelected(s: Slots, offset: U32, voiceId: Option<I32>, channel: U8, note: U8)
    ensures var r := Choke(s, offset, voiceId, channel, note);
      forall k :: 0 <= k < NUM_VOICES ==> r.slots[k] == if Selected(s, voiceId, channel, note, k) then None else s[k]
    ensures var r := Choke(s, offset, voiceId, channel, note);
      voiceId.None? ==> forall k :: 0 <= k < NUM_VOICES ==>
        (r.slots[k].None? <==> s[k].None? || (s[k].value.channel == channel && s[k].value.note == note))
    ensures var r := Choke(s, offset, voiceId, channel, note);
      forall t :: t in r.emitted <==>
        exists k :: 0 <= k < NUM_VOICES && Selected(s, voiceId, channel, note, k) && t == Terminated(offset, s[k].value.voiceId, channel, note)
    ensures var r := Choke(s, offset, voiceId, channel, note);
      var p := SelectedSlots(s, voiceId, channel, note, NUM_VOICES);
      && |r.emitted| == |p|
      && forall i :: 0 <= i < |p| ==>
        p[i] < NUM_VOICES && s[p[i]].Some? && r.emitted[i] == Terminated(offset, s[p[i]].value.voiceId, channel, note)
  {
    ChokeEventsMembers(s, offset, voiceId, channel, note, NUM_VOICES);
    ChokeEventsInSlotOrder(s, offset, voiceId, channel, note, NUM_VOICES);
  }

  /** A choke sends exactly one notification per slot it empties. */
  lemma ChokeOneEventPerClearedSlot(s: Slots, offset: U32, voiceId: Option<I32>, channel: U8, note: U8)
    ensures var r := Choke(s, offset, voiceId, channel, note);
      |r.emitted| == |set k | 0 <= k < NUM_VOICES && s[k].Some? && r.slots[k].None?|
  {
    var r := Choke(s, offset, voiceId, channel, note);
    ChokeEventsCount(s, offset, voiceId, channel, note, NUM_VOICES);
    assert (set k | 0 <= k < NUM_VOICES && s[k].Some? && r.slots[k].None?)
        == SelectedBelow(s, voiceId, channel, note, NUM_VOICES);
  }

  lemma {:induction false} ChokeEventsNone(s: Slots, offset: U32, voiceId: Option<I32>, channel: U8, note: U8, n: nat)
    requires n <= NUM_VOICES
    requires forall k :: 0 <= k < n ==> !Selected(s, voiceId, channel, note, k)
    ensures ChokeEvents(s, offset, voiceId, channel, note, n) == []
  {
    if n > 0 {
      ChokeEventsNone(s, offset, voiceId, channel, note, n - 1);
    }
  }

  lemma {:induction false} ChokeEventsSingle(s: Slots, offset: U32, voiceId: Option<I32>, channel: U8, note: U8, n: nat, f: nat)
    requires f < n <= NUM_VOICES && s[f].Some?
    requires forall k :: 0 <= k < n ==> (Selected(s, voiceId, channel, note, k) <==> k == f)
    ensures ChokeEvents(s, offset, voiceId, channel, note, n) == [Terminated(offset, s[f].value.voiceId, channel, note)]
  {
    if n - 1 == f {
      ChokeEventsNone(s, offset, voiceId, channel, note, f);
    } else {
      ChokeEventsSingle(s, offset, voiceId, channel, note, n - 1, f);
    }
  }

  /** A choke naming an explicit voice id empties only the first matching slot
      and reports that slot's own voice id with the event's channel and note;
      when nothing matches, nothing changes. */
  lemma ChokeWithExplicitId(s: Slots, offset: U32, voiceId: Option<I32>, channel: U8, note: U8, f: nat)
    requires voiceId.Some? && f < NUM_VOICES
    requires SlotMatches(s[f], voiceId, channel, note)
    requires forall j :: 0 <= j < f ==> !SlotMatches(s[j], voiceId, channel, note)
    ensures var r := Choke(s, offset, voiceId, channel, note);
      && r.slots == s[f := None]
      && r.emitted == [Terminated(offset, s[f].value.voiceId, channel, note)]
  {
    var r := Choke(s, offset, voiceId, channel, note);
    forall k | 0 <= k < NUM_VOICES
      ensures Selected(s, voiceId, channel, note, k) <==> k == f
    {
    }
    ChokeEventsSingle(s, offset, voiceId, channel, note, NUM_VOICES, f);
    assert r.slots == s[f := None];
  }

  /** A choke that matches no slot changes nothing and sends nothing. */
  lemma ChokeNoMatch(s: Slots, offset: U32, voiceId: Option<I32>, channel: U8, note: U8)
    requires forall k :: 0 <= k < NUM_VOICES ==> !SlotMatches(s[k], voiceId, channel, note)
    ensures Choke(s, offset, voiceId, channel, note) == Cleared(s, [])
  {
    var r := Choke(s, offset, voiceId, channel, note);
    ChokeEventsNone(s, offset, voiceId, channel, note, NUM_VOICES);
    assert r.slots == s;
  }

  ghost function FinishedBelow(s: Slots, n: nat): set<nat>
    requires n <= NUM_VOICES
  {
    set k | 0 <= k < n && Finished(s[k])
  }

  lemma {:induction false} RetireEventsCount(s: Slots, timing: U32, n: nat)
    requires n <= NUM_VOICES
    ensures |RetireEvents(s, timing, n)| == |FinishedBelow(s, n)|
  {
    if n > 0 {
      RetireEventsCount(s, timing, n - 1);
      if Finished(s[n - 1]) {
        assert n - 1 !in FinishedBelow(s, n - 1);
        assert FinishedBelow(s, n) == FinishedBelow(s, n - 1) + {n - 1};
      } else {
        assert FinishedBelow(s, n) == FinishedBelow(s, n - 1);
      }
    }
  }

  /** Which notifications occur among those for the slots below `n`: each names
      a finished slot's voice, channel and note, and every finished slot's
      notification occurs. */
  lemma {:induction false} RetireEventsMembers(s: Slots, timing: U32, n: nat)
    requires n <= NUM_VOICES
    ensures forall t :: t in RetireEvents(s, timing, n) <==>
      exists k :: 0 <= k < n && Finished(s[k]) && t == Terminated(timing, s[k].value.voiceId, s[k].value.channel, s[k].value.note)
  {
    if n > 0 {
      RetireEventsMembers(s, timing, n - 1);
    }
  }

  /** The indices below `n` of the finished slots, in ascending order. */
  ghost function FinishedSlots(s: Slots, n: nat): seq<nat>
    requires n <= NUM_VOICES
  {
    if n == 0 then []
    else FinishedSlots(s, n - 1) + (if Finished(s[n - 1]) then [n - 1] else [])
  }

  /** `FinishedSlots` lists every finished slot below `n`, only those, each once
      and in ascending order. */
  lemma {:induction false} FinishedSlotsAscending(s: Slots, n: nat)
    requires n <= NUM_VOICES
    ensures forall i :: 0 <= i < |FinishedSlots(s, n)| ==> FinishedSlots(s, n)[i] < n && Finished(s[FinishedSlots(s, n)[i]])
    ensures forall i, j :: 0 <= i < j < |FinishedSlots(s, n)| ==> FinishedSlots(s, n)[i] < FinishedSlots(s, n)[j]
    ensures forall k :: 0 <= k < n && Finished(s[k]) ==> k in FinishedSlots(s, n)
  {
    if n > 0 {
      FinishedSlotsAscending(s, n - 1);
      var q := FinishedSlots(s, n - 1);
      var p := FinishedSlots(s, n);
      if Finished(s[n - 1]) {
        assert p == q + [n - 1];
      } else {
        assert p == q;
      }
    }
  }

  /** The notifications for the slots below `n` are exactly one per finished
      slot, in slot order: the i-th names the i-th finished slot's voice,
      channel and note. */
  lemma {:induction false} RetireEventsInSlotOrder(s: Slots, timing: U32, n: nat)
    requires n <= NUM_VOICES
    ensures var p := FinishedSlots(s, n);
      var e := RetireEvents(s, timing, n);
      && |e| == |p|
      && forall i :: 0 <= i < |p| ==>
        p[i] < NUM_VOICES && Finished(s[p[i]])
        && e[i] == Terminated(timing, s[p[i]].value.voiceId, s[p[i]].value.channel, s[p[i]].value.note)
  {
    if n > 0 {
      RetireEventsInSlotOrder(s, timing, n - 1);
      FinishedSlotsAscending(s, n - 1);
    }
  }

  /** The retirement scan empties exactly the finished slots, leaves every other
      slot as it was, and sends one notification per emptied slot, in slot
      order, stamped with the scan's timing and naming the retired voice. */
  lemma RetireExactlyFinished(s: Slots, timing: U32)
    ensures var r := Retire(s, timing);
      && (forall k :: 0 <= k < NUM_VOICES ==> (r.slots[k] == if Finished(s[k]) then None else s[k]))
      && |r.emitted| == |set k | 0 <= k < NUM_VOICES && s[k].Some? && r.slots[k].None?|
    ensures var r := Retire(s, timing);
      forall t :: t in r.emitted <==>
        exists k :: 0 <= k < NUM_VOICES && Finished(s[k]) && t == Terminated(timing, s[k].value.voiceId, s[k].value.channel, s[k].value.note)
    ensures var r := Retire(s, timing);
      var p := FinishedSlots(s, NUM_VOICES);
      && |r.emitted| == |p|
      && forall i :: 0 <= i < |p| ==>
        p[i] < NUM_VOICES && Finished(s[p[i]])
        && r.emitted[i] == Terminated(timing, s[p[i]].value.voiceId, s[p[i]].value.channel, s[p[i]].value.note)
  {
    var r := Retire(s, timing);
    RetireEventsCount(s, timing, NUM_VOICES);
    RetireEventsMembers(s, timing, NUM_VOICES);
    RetireEventsInSlotOrder(s, timing, NUM_VOICES);
    assert (set k | 0 <= k < NUM_VOICES && s[k].Some? && r.slots[k].None?) == FinishedBelow(s, NUM_VOICES);
  }

  /** Choking a voice just started, when no other voice matches the event,
      empties that voice's slot, reports its id once, and leaves the slot as
      the one the next allocation takes. */
  lemma StartThenChoke(s: Slots, counter: U64, t1: U32, t2: U32, voiceId: Option<I32>, channel: U8, note: U8)
    requires forall k :: 0 <= k < NUM_VOICES ==> !SlotMatches(s[k], voiceId, channel, note)
    ensures
      var st := Start(s, counter, t1, voiceId, channel, note);
      var c := Choke(st.slots, t2, voiceId, channel, note);
      && c.slots == st.slots[st.index := None]
      && c.emitted == [Terminated(t2, NewVoice(voiceId, channel, note, counter).voiceId, channel, note)]
      && Start(c.slots, st.counter, t2, voiceId, channel, note).index == st.index
  {
    var st := Start(s, counter, t1, voiceId, channel, note);
    var i := st.index;
    assert SlotMatches(st.slots[i], voiceId, channel, note);
    assert forall j :: 0 <= j < i ==> st.slots[j] == s[j];
    ChokeSingleMatch(st.slots, t2, voiceId, channel, note, i);
    var c := Choke(st.slots, t2, voiceId, channel, note);
    assert c.slots[i].None?;
    var next := Start(c.slots, st.counter, t2, voiceId, channel, note);
    assert !AllLive(c.slots);
  }

  /** A choke whose only matching slot is `f` empties exactly that slot. */
  lemma ChokeSingleMatch(s: Slots, offset: U32, voiceId: Option<I32>, channel: U8, note: U8, f: nat)
    requires f < NUM_VOICES && SlotMatches(s[f], voiceId, channel, note)
    requires forall j :: 0 <= j < NUM_VOICES && j != f ==> !SlotMatches(s[j], voiceId, channel, note)
    ensures var r := Choke(s, offset, voiceId, channel, note);
      && r.slots == s[f := None]
      && r.emitted == [Terminated(offset, s[f].value.voiceId, channel, note)]
  {
    ChokeEventsSingle(s, offset, voiceId, channel, note, NUM_VOICES, f);
    assert Choke(s, offset, voiceId, channel, note).slots == s[f := None];
  }

  /** Every live voice was allocated before the counter's current value and no
      two live voices share an internal id. */
  ghost predicate AllocationOrdered(s: Slots, counter: U64)
  {
    && (forall k :: 0 <= k < NUM_VOICES && s[k].Some? ==> s[k].value.internalVoiceId < counter)
    && (forall a, b :: 0 <= a < b < NUM_VOICES && s[a].Some? && s[b].Some? ==>
          s[a].value.internalVoiceId != s[b].value.internalVoiceId)
  }

  /** Until the 64-bit counter wraps, allocating keeps internal ids distinct and
      increasing, so the stolen voice is always the least recently started. */
  lemma StartKeepsAllocationOrder(s: Slots, counter: U64, offset: U32, voiceId: Option<I32>, channel: U8, note: U8)
    requires AllocationOrdered(s, counter) && counter + 1 < U64_LIMIT
    ensures var r := Start(s, counter, offset, voiceId, channel, note);
      AllocationOrdered(r.slots, r.counter) && r.counter == counter + 1
  {
  }
}
