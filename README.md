# scale-colorizr: voice pool and block scheduler

This project models the voice management and sample-accurate block splitting
of the scale-colorizr polyphonic filter plugin (`src/lib.rs`), and proves
properties of the model.

- **Voice pool.** There are 16 optional voice slots and a 64-bit allocation counter.
  - A note-on takes the first free slot, or steals the voice with the smallest
    internal id and tells the host.
  - A note-off marks matching voices as releasing.
  - A choke empties matching slots at once and tells the host.
  - `reset` clears every slot.
  - A voice can be looked up by its id.
- **Fallback voice id.** When the host gives no id, the plugin packs the note and
  channel into an `i32`.
- **Block loop of `process`.** The buffer is cut into sub-blocks of at most 64
  samples, each cut short at the next event.
  - At a sub-block's start, the waiting event and those after it are dispatched
    while each is due; the first event not yet due ends the run.
  - Every live voice is then rendered.
  - Voices whose release has ended are retired with a notification stamped with
    the sub-block's end.
- **Display stores.** When the editor is open, the display arrays are filled after
  the buffer.

## Files

- `types.dfy`: constants, integer widths, the voice, filter and event values.
- `voice_id.dfy`: `compute_fallback_voice_id` on integers, with a bit-level OR.
- `pool.dfy`: the pool operations as functions of the slot array, and their
  properties.
- `schedule.dfy`: the sub-block schedule computed from event timings, and its
  tiling, timing and ordering properties.
- `engine.dfy`: one buffer as a state machine over (slots, counter, notifications
  sent). The audio path is a parameter.
- `plugin.dfy`: the classes.
  - `HostContext` models the event queue, `next_event` and `send_event`.
  - `ScaleColorizr` holds the `voices` array, the counter and the two display
    arrays. Its methods keep the source's loops and are proved equal to the
    functions above.

## Model

| member | source | states |
|---|---|---|
| VoiceId.FallbackVoiceId | src/lib.rs:500-502 | the OR of the note and the channel shifted left by 16 equals `note + channel * 65536` |
| VoiceId.FallbackDecodes | src/lib.rs:500-502 | the note is the id modulo 65536 and the channel is the id divided by 65536 |
| VoiceId.FallbackInjective | src/lib.rs:500-502 | two (note, channel) pairs give the same id exactly when they are equal |
| VoiceId.FallbackRange | src/lib.rs:500-502 | a fallback id is non-negative and below 2^24 |
| Types.WrappingIncrement | src/lib.rs:384 | the counter goes up by one, and from 2^64-1 it goes back to 0 |
| Types.DefaultFilters | src/lib.rs:382 | a new voice's filter bank has every band's coefficients at the identity, so it passes sound through |
| Types.ToU32 | src/lib.rs:305 | `block_end as u32` keeps the value when it fits in 32 bits |
| Pool.FirstFree | src/lib.rs:388 | the result is the lowest empty slot; it is None exactly when every slot is live |
| Pool.FindVoice | src/lib.rs:354-358 | the result is the first slot whose voice has the id; it is None exactly when no slot has it |
| Pool.Oldest | src/lib.rs:397-401 | on a full pool, the slot with the least internal id, and the first such slot on ties |
| Pool.NewVoice | src/lib.rs:371-383 | the host's id or else the fallback id, the counter's value as internal id, not releasing |
| Pool.Start | src/lib.rs:362-420 | one slot becomes the new voice and the counter wraps up by one. With a free slot: the lowest one, and no notification. With a full pool: the least internal id (first on ties), and one notification with that voice's id, channel and note |
| Pool.Release | src/lib.rs:424-457 | no slot is emptied or filled |
| Pool.Choke | src/lib.rs:462-496 | every slot left live is unchanged |
| Pool.Retire | src/lib.rs:299-314 | no finished voice is left in the pool |
| Pool.Matches | src/lib.rs:440-441 | no contract of its own; the addressing rule shared with `choke_voices` (lib.rs:477-478): `Pool.ExplicitIdCanHitAnotherVoice` shows the (channel, note) alternative can win over the id, and `Pool.UnlabelledSelectsAllMatches` states the rule without an id |
| Pool.SlotMatches | src/lib.rs:477-478 | no contract of its own; `Pool.ChokeWithExplicitId`, `Pool.ChokeSingleMatch` and `Pool.ChokeNoMatch` state what a choke does for each way slots can match |
| Pool.Released | src/lib.rs:443 | no contract of its own; `Pool.ReleaseChangesOnlySelected` states that a selected voice becomes the same voice with `releasing = true` |
| Pool.Finished | src/lib.rs:301 | no contract of its own; `Pool.RetireExactlyFinished` and `Pool.FinishedSlotsAscending` state that exactly the slots it holds for are emptied and reported |
| Pool.EmptyPool | src/lib.rs:55-72 | every slot is empty |
| Pool.ExplicitIdSelectsOne | src/lib.rs:440-452 | with an explicit id, at most one slot is acted on |
| Pool.UnlabelledSelectsAllMatches | src/lib.rs:440-452 | without an id, a slot is acted on exactly when its channel and note match |
| Pool.ExplicitIdCanHitAnotherVoice | src/lib.rs:440-441 | a note-off naming a later voice's id releases an earlier voice with the same channel and note, and leaves the named voice alone |
| Pool.ReleaseChangesOnlySelected | src/lib.rs:431-456 | every selected voice gets `releasing = true`, and without an id every voice whose channel and note match does; no other slot changes and nothing else in a voice changes; with no match the pool is unchanged |
| Pool.ChokeStopsAtFirst | src/lib.rs:489-491 | with an explicit id, no slot after the first match is acted on, and the notifications end with that slot's |
| Pool.Selected | src/lib.rs:440-452 | no contract of its own; `Pool.ExplicitIdSelectsOne`, `Pool.UnlabelledSelectsAllMatches` and `Pool.ChokeStopsAtFirst` state which slots it picks |
| Pool.ChokeEvents | src/lib.rs:470-495 | no contract of its own; `Pool.ChokeEventsMembers`, `Pool.ChokeEventsInSlotOrder` and `Pool.ChokeEventsCount` state what it holds |
| Pool.ChokeEventsCount | src/lib.rs:470-495 | as many notifications as selected slots among those scanned so far |
| Pool.ChokeEventsMembers | src/lib.rs:470-495 | which notifications occur among those for the slots scanned so far: each names a selected slot's voice with the event's channel and note, and every selected slot's notification occurs |
| Pool.SelectedSlotsAscending | src/lib.rs:470-495 | the reference list of selected slots holds every selected slot scanned so far, only those, strictly ascending (so each once) |
| Pool.ChokeEventsInSlotOrder | src/lib.rs:470-495 | the notifications for the slots scanned so far are exactly one per selected slot, in slot order: the i-th names the i-th selected slot's voice with the event's channel and note |
| Pool.ChokeEmptiesSelected | src/lib.rs:470-495 | exactly the selected slots are emptied, the others are unchanged, and without an id a slot ends empty exactly when it was empty or its channel and note match; the notifications are one per selected slot in slot order, the i-th naming the i-th selected slot's voice with the event's channel and note |
| Pool.ChokeOneEventPerClearedSlot | src/lib.rs:470-495 | the number of notifications equals the number of slots the choke empties |
| Pool.ChokeWithExplicitId | src/lib.rs:470-495 | with an explicit id, only the first matching slot is emptied, and one notification is sent with that voice's own id and the event's channel and note |
| Pool.ChokeSingleMatch | src/lib.rs:470-495 | when one slot matches, exactly that slot is emptied, with one notification |
| Pool.ChokeNoMatch | src/lib.rs:470-495 | a choke that matches nothing changes nothing and sends nothing |
| Pool.RetireEvents | src/lib.rs:299-314 | no contract of its own; `Pool.RetireEventsMembers`, `Pool.RetireEventsInSlotOrder` and `Pool.RetireEventsCount` state what it holds |
| Pool.RetireEventsCount | src/lib.rs:299-314 | as many notifications as finished slots among those scanned so far |
| Pool.RetireEventsMembers | src/lib.rs:299-314 | which notifications occur among those for the slots scanned so far: each carries a finished slot's voice id, channel and note, and every finished slot's notification occurs |
| Pool.FinishedSlotsAscending | src/lib.rs:299-314 | the reference list of finished slots holds every finished slot scanned so far, only those, strictly ascending (so each once) |
| Pool.RetireEventsInSlotOrder | src/lib.rs:299-314 | the notifications for the slots scanned so far are exactly one per finished slot, in slot order: the i-th carries the i-th finished slot's voice id, channel and note |
| Pool.RetireExactlyFinished | src/lib.rs:299-314 | exactly the releasing slots whose envelope is at 0.0 are emptied, the rest are unchanged, and there is one notification per emptied slot; the notifications follow slot order, the i-th carrying the scan's timing and the i-th retired voice's id, channel and note |
| Pool.StartThenChoke | src/lib.rs:362-420 | a voice started and then choked, with no other voice matching, empties its own slot and is reported once; the next allocation takes that slot again |
| Pool.StartKeepsAllocationOrder | src/lib.rs:373-384 | while the counter does not wrap, live internal ids stay distinct and below the counter |
| Schedule.DrainEnd | src/lib.rs:185-242 | the events dispatched at a block head are the run of due events starting from the waiting one, and the event that ends the run is not due |
| Schedule.CutEnd | src/lib.rs:235-240 | a sub-block is non-empty and no longer than `min(start + 64, n)` |
| Schedule.Blocks | src/lib.rs:179-319 | the schedule is empty exactly when the start is at or past the buffer end, and it begins at the current start and event |
| Schedule.BlocksTile | src/lib.rs:179-319 | sub-blocks are non-empty, at most 64 long, contiguous in samples and in event ranges, and the last one ends at the buffer end |
| Schedule.FinalEvent | src/lib.rs:179-244 | no contract of its own; `Schedule.FinalEventIsConsumed` states it is the event after the last sub-block's range, and `Schedule.NoEventEarly` that it is not yet due |
| Schedule.FinalEventIsConsumed | src/lib.rs:179-319 | the event waiting when the loop ends is the one after the last sub-block's range |
| Schedule.NoEventEarly | src/lib.rs:188 | no event is dispatched before its timing, and the event left waiting is not yet due |
| Schedule.CutAtNextEvent | src/lib.rs:235-240 | a sub-block is shorter than full exactly when the waiting event falls inside it, and then it ends at that event's timing |
| Schedule.EverySampleCovered | src/lib.rs:179-319 | every sample offset of the buffer lies in some sub-block |
| Schedule.BlocksOrdered | src/lib.rs:316-318 | sub-blocks follow one another without overlap |
| Schedule.OutOfOrderEventDispatchedLate | src/lib.rs:185-242 | with timings [5, 0] in a 10-sample buffer, the event timed 0 is dispatched only at the sub-block starting at 5 |
| Schedule.SortedEventsAllDispatched | src/lib.rs:185-244 | when events are sorted by timing, the next one is not before the block start, and all lie inside the buffer, every event is dispatched |
| Schedule.SortedEventsOnTime | src/lib.rs:185-244 | under the same conditions each event is dispatched at the head of the sub-block starting exactly at its timing |
| Engine.Dispatch | src/lib.rs:191-232 | handling an event never revises the notifications already sent |
| Engine.Rendered | src/lib.rs:261-284 | no contract of its own; `Engine.Render` states that only the voice's filters and envelope change |
| Engine.Render | src/lib.rs:261-284 | rendering keeps which slots are live and changes only each voice's filters and envelope |
| Engine.DispatchRange | src/lib.rs:185-232 | no contract of its own; `Engine.DispatchRangeOnlyAppends` and `Engine.DispatchRangeKeepsAllocationOrder` state what it keeps |
| Engine.RunBlock | src/lib.rs:185-314 | no contract of its own; the ensures of `Pool.Retire` (no finished voice is left) and `Engine.RunBlockKeepsAllocationOrder` state what one sub-block does |
| Engine.RunFrom | src/lib.rs:179-319 | no contract of its own; `Engine.RunFromFollowsSchedule` states that it runs the sub-blocks of `Schedule.Blocks` in order |
| Engine.ProcessBuffer | src/lib.rs:164-319 | no contract of its own; `Engine.NoFinishedVoiceAfterBuffer` and `Engine.ProcessKeepsAllocationOrder` state what one buffer does |
| Engine.PendingAfter | src/lib.rs:179-181 | no contract of its own; `Plugin.PendingAfterIsRest` states that it is the queue after the held event |
| Engine.RunFromFollowsSchedule | src/lib.rs:179-319 | the loop as written runs exactly the sub-blocks of the schedule, in order |
| Engine.RunOnlyAppends | src/lib.rs:179-319 | over any schedule, notifications are only appended |
| Engine.DispatchRangeOnlyAppends | src/lib.rs:185-244 | dispatching a run of events only appends notifications |
| Engine.NoFinishedVoiceLeft | src/lib.rs:297-318 | when the loop ends, whatever sub-block it was started from, no finished voice is left in the pool |
| Engine.NoFinishedVoiceAfterBuffer | src/lib.rs:297-314 | after a non-empty buffer no finished voice is left in the pool |
| Engine.DispatchKeepsAllocationOrder | src/lib.rs:191-232 | handling an event keeps live internal ids distinct and below the counter, and advances the counter by at most one |
| Engine.DispatchRangeKeepsAllocationOrder | src/lib.rs:185-232 | dispatching a run of events keeps live internal ids distinct and below the counter, and advances the counter by at most the number of events |
| Engine.RunBlockKeepsAllocationOrder | src/lib.rs:185-314 | one sub-block keeps that order and advances the counter by at most the number of its events |
| Engine.RunKeepsAllocationOrder | src/lib.rs:179-319 | over a chained schedule, while the counter cannot wrap, live internal ids stay distinct and below the counter, and the counter advances by at most the number of events consumed |
| Engine.ProcessKeepsAllocationOrder | src/lib.rs:164-348 | one buffer keeps the allocation order while the counter cannot wrap |
| Plugin.PendingAfterIsRest | src/lib.rs:179-181 | the queue left after the block loop is the events after the one still held in `next_event` |
| Plugin.HostContext.constructor | src/lib.rs:164-169 | a fresh queue with nothing handed out and nothing sent |
| Plugin.HostContext.NextEvent | src/lib.rs:179 | hands out the next queued event and advances the queue, or None when the queue is empty |
| Plugin.HostContext.SendEvent | src/lib.rs:304-309 | appends one notification |
| Plugin.ScaleColorizr.constructor | src/lib.rs:55-72 | no voices, counter 0, every display cell empty |
| Plugin.ScaleColorizr.Reset | src/lib.rs:156-162 | every slot is empty |
| Plugin.ScaleColorizr.GetVoiceIdx | src/lib.rs:354-358 | returns the first slot holding the id, or None |
| Plugin.ScaleColorizr.StartVoice | src/lib.rs:362-420 | the array, counter, returned slot and notifications are exactly those of `Pool.Start` |
| Plugin.ScaleColorizr.StartReleaseForVoices | src/lib.rs:424-457 | the array becomes `Pool.Release` of the old array |
| Plugin.ScaleColorizr.ChokeVoices | src/lib.rs:462-496 | the array and the notifications are exactly those of `Pool.Choke` |
| Plugin.ScaleColorizr.HandleEvent | src/lib.rs:191-232 | the plugin state becomes `Engine.Dispatch` of the old state |
| Plugin.ScaleColorizr.RenderVoices | src/lib.rs:261-284 | the array becomes `Engine.Render` of the old array |
| Plugin.ScaleColorizr.RetireFinishedVoices | src/lib.rs:297-314 | the array and notifications are exactly those of `Pool.Retire` at `block_end as u32` |
| Plugin.FrequencyShown | src/lib.rs:323-330 | no contract of its own; `Plugin.ScaleColorizr.PublishFrequencies` states every cell ends up showing it |
| Plugin.CoefficientsShown | src/lib.rs:335-342 | no contract of its own; `Plugin.ScaleColorizr.PublishCoefficients` states every cell ends up showing it |
| Plugin.ScaleColorizr.PublishFrequencies | src/lib.rs:322-332 | every frequency cell shows its band's frequency for a live voice, and None for an empty slot |
| Plugin.ScaleColorizr.PublishCoefficients | src/lib.rs:334-344 | every coefficient cell shows its band's coefficients for a live voice, and None for an empty slot |
| Plugin.ScaleColorizr.DispatchDueEvents | src/lib.rs:185-242 | dispatches, in order, the run of due events starting from the waiting one, and holds the first one not due |
| Plugin.ScaleColorizr.ProcessSubBlock | src/lib.rs:183-318 | one iteration of the block loop is one step of `Engine.RunFrom`, and the sub-block is non-empty |
| Plugin.ScaleColorizr.Process | src/lib.rs:164-348 | the state becomes `Engine.ProcessBuffer` of the old state, the queue is left as `Engine.PendingAfter` says, and the displays are published exactly when the editor is open |

## Notes on the source's behaviour

These points are easy to misread in the source. The model follows the code as written.

- **Explicit-id matching.** A note-off or choke with an explicit id acts on the
  first slot where the id matches OR the channel and note match. So it can act
  on a different voice from the one named. `Pool.ExplicitIdCanHitAnotherVoice`
  shows such a case.
- **`reset`.** It empties the slots without sending termination notifications.
- **Voice count.** There is no configurable voice-count limit. All 16 slots are
  used.
- **Out-of-order events.** The events loop stops at the first event that is not
  yet due. An event delivered after a later-timed one therefore waits and is
  applied late, at the later event's sub-block. `Schedule.OutOfOrderEventDispatchedLate`
  shows a case.
- **Other events.** Retune and polyphonic expression events are ignored.
- **The held event.** The event held in `next_event` when the block loop ends is
  taken out of the host's queue and not handled. This is what
  `Engine.PendingAfter` states.
- **Band frequency.** `src/lib.rs` assigns a `frequency` to each filter band.
  The `Biquad` in `src/filter.rs` declares no such field. The model gives the
  band that field and starts it at 0.0.

## Left out

- The floating-point audio path is a parameter (`Engine.AudioPath`) and is not computed:
  - coefficient formulas (`src/filter.rs`);
  - harmonic frequencies and the `exp()` falloff;
  - gain smoothing, velocity and `midi_note_to_freq`;
  - the amplitude envelopes.
  - Every property holds for every path.
- The per-sample loop is not modelled. A voice ends a sub-block with the filter
  settings and the "envelope at 0.0" flag the path gives for that sub-block.
- The filters' recursion registers, the dry copy, the delta (wet minus dry)
  subtraction and the output buffer are not modelled: they are audio sample data.
- The envelope retargeting in `start_release_for_voices` and the fresh attack
  envelope on note-on are reduced to the `envelopeAtZero` flag. The `sample_rate`
  argument is left out with them.
- `AtomicCell` atomicity and the GUI reader of the display arrays are left out:
  they are concurrency.
- `src/editor.rs`, `src/editor/utils.rs`, parameters, `initialize`, `params`,
  `editor`, the plugin trait impls and the export macros are not part of this
  model.
- Engine.ProcessKeepsAllocationOrder: it assumes the 64-bit counter does not wrap
  during the buffer. After a wrap, internal ids can repeat and the steal order no
  longer follows start order.
- Pool.StartKeepsAllocationOrder: it has the same no-wrap assumption.
- Pool.Release: its own contract states only that liveness is unchanged. What a
  note-off changes is stated by `Pool.ReleaseChangesOnlySelected`.
  - It gives every selected voice `releasing = true` and changes nothing else.
  - Without an id, it does so for every voice whose channel and note match.
