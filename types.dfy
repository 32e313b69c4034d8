/**
 Values shared by the voice pool, the block scheduler and the plugin object:
 the fixed capacities, the integer widths of the fields, a voice, the opaque
 filter state it carries, and the note events that come from and go to the host.
 */
module Types {

  /** Largest sub-block the scheduler renders in one go. */
  const MAX_BLOCK_SIZE: nat := 64
  /** Number of voice slots in the pool. */
  const NUM_VOICES: nat := 16
  /** Number of harmonic filter bands per voice. */
  const NUM_FILTERS: nat := 8

  const U32_LIMIT: int := 0x1_0000_0000
  const U64_LIMIT: int := 0x1_0000_0000_0000_0000

  type U8 = x: int | 0 <= x < 0x100
  type U32 = x: int | 0 <= x < U32_LIMIT
  type U64 = x: int | 0 <= x < U64_LIMIT
  type I32 = x: int | -0x8000_0000 <= x < 0x8000_0000

  datatype Option<T> = None | Some(value: T)

  function Min(a: int, b: int): int { if a <= b then a else b }

  /** `x as u32` for a `usize` value: the value is truncated to its low 32 bits. */
  function ToU32(x: nat): (r: U32)
    ensures x < U32_LIMIT ==> r == x
  {
    x % U32_LIMIT
  }

  /** `u64::wrapping_add(c, 1)`. */
  function WrappingIncrement(c: U64): (r: U64)
    ensures c + 1 < U64_LIMIT ==> r == c + 1
    ensures c + 1 == U64_LIMIT ==> r == 0
  {
    (c + 1) % U64_LIMIT
  }

  /** The five prenormalised biquad coefficients; their values are floating point
      and are carried here without interpretation. */
  datatype Coefficients = Coefficients(b0: real, b1: real, b2: real, a1: real, a2: real)

  /** Pass-through coefficients, as a freshly constructed filter has them. */
  const IDENTITY: Coefficients := Coefficients(1.0, 0.0, 0.0, 0.0, 0.0)

  /** One filter band of a voice: its coefficients and the band frequency last
      assigned to it (the recursion registers are not modelled). */
  datatype Biquad = Biquad(coefficients: Coefficients, frequency: real)

  type FilterBank = f: seq<Biquad> | |f| == NUM_FILTERS
    witness seq(NUM_FILTERS, _ => Biquad(IDENTITY, 0.0))

  /** The filter bank a new voice starts with: every band passes sound through. */
  function DefaultFilters(): (f: FilterBank)
    ensures forall j :: 0 <= j < |f| ==> f[j].coefficients == IDENTITY
  {
    seq(NUM_FILTERS, _ => Biquad(IDENTITY, 0.0))
  }

  /**
   One active note. The amplitude envelope is reduced to the one fact the pool
   looks at: whether its previous value is exactly 0.0.
   */
  datatype Voice = Voice(
    voiceId: I32,
    channel: U8,
    note: U8,
    internalVoiceId: U64,
    filters: FilterBank,
    releasing: bool,
    envelopeAtZero: bool)

  type Slot = Option<Voice>

  /** The pool: a fixed number of optional voices, indexed by slot. */
  type Slots = s: seq<Slot> | |s| == NUM_VOICES
    witness seq(NUM_VOICES, _ => None)

  /** An inbound note event. Every kind the plugin does not handle (expression,
      retuning, transport events, ...) is `Other`. */
  datatype NoteEvent =
    | NoteOn(timing: U32, voiceId: Option<I32>, channel: U8, note: U8)
    | NoteOff(timing: U32, voiceId: Option<I32>, channel: U8, note: U8)
    | Choke(timing: U32, voiceId: Option<I32>, channel: U8, note: U8)
    | Other(timing: U32)

  /** The outbound `VoiceTerminated` notification (its voice id is always present). */
  datatype Terminated = Terminated(timing: U32, voiceId: I32, channel: U8, note: U8)

  /** The sample offsets of a sequence of events, in order. */
  function Timings(events: seq<NoteEvent>): (ts: seq<nat>)
    ensures |ts| == |events|
    ensures forall i :: 0 <= i < |events| ==> ts[i] == events[i].timing
  {
    seq(|events|, i requires 0 <= i < |events| => events[i].timing as nat)
  }
}
