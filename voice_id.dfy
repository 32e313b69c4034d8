/**
 The voice identifier the plugin synthesises when the host does not supply one:
 the note number in the low 16 bits and the MIDI channel above them.
 */
module VoiceId {
  import opened Types

  function Pow2(k: nat): (p: nat)
    ensures p >= 1
  {
    if k == 0 then 1 else 2 * Pow2(k - 1)
  }

  /** Bitwise OR of two non-negative integers, taken bit by bit from the least
      significant end (for non-negative `i32` values this is Rust's `|`). */
  function BitOr(a: nat, b: nat): nat
    decreases a + b
  {
    if a == 0 then b
    else if b == 0 then a
    else 2 * BitOr(a / 2, b / 2) + (if a % 2 == 1 || b % 2 == 1 then 1 else 0)
  }

  /** `a << k` for a value that does not overflow. */
  function ShiftLeft(a: nat, k: nat): nat
  {
    a * Pow2(k)
  }

  /** OR-ing a value below 2^k into a multiple of 2^k adds it. */
  lemma {:induction false} OrOfDisjoint(a: nat, b: nat, k: nat)
    requires a < Pow2(k)
    ensures BitOr(a, ShiftLeft(b, k)) == a + ShiftLeft(b, k)
  {
    if k == 0 || a == 0 || b == 0 {
    } else {
      var p := Pow2(k - 1);
      assert Pow2(k) == 2 * p;
      assert ShiftLeft(b, k) == 2 * (b * p);
      assert ShiftLeft(b, k) / 2 == ShiftLeft(b, k - 1);
      assert ShiftLeft(b, k) % 2 == 0;
      OrOfDisjoint(a / 2, b, k - 1);
    }
  }

  lemma Pow2Of16()
    ensures Pow2(16) == 0x1_0000
  {
    assert Pow2(4) == 16 by { assert Pow2(2) == 4; }
    assert Pow2(8) == 256 by { assert Pow2(6) == 64; }
    assert Pow2(12) == 4096 by { assert Pow2(10) == 1024; }
    assert Pow2(14) == 16384;
  }

  /** `note as i32 | ((channel as i32) << 16)`: the note plus the channel times 65536. */
  function FallbackVoiceId(note: U8, channel: U8): (id: I32)
    ensures id == note + channel * 0x1_0000
  {
    Pow2Of16();
    OrOfDisjoint(note, channel, 16);
    BitOr(note, ShiftLeft(channel, 16))
  }

  /** The note is the low half of the identifier and the channel the high half. */
  lemma {:induction false} FallbackDecodes(note: U8, channel: U8)
    ensures FallbackVoiceId(note, channel) % 0x1_0000 == note
    ensures FallbackVoiceId(note, channel) / 0x1_0000 == channel
  {
    var id := FallbackVoiceId(note, channel);
    var q := id / 0x1_0000;
    var r := id % 0x1_0000;
    assert id == q * 0x1_0000 + r;
    assert -0x1_0000 < (q - channel) * 0x1_0000 < 0x1_0000;
    assert q == channel;
  }

  /** Distinct (note, channel) pairs never share a fallback identifier. */
  lemma FallbackInjective(n1: U8, c1: U8, n2: U8, c2: U8)
    ensures FallbackVoiceId(n1, c1) == FallbackVoiceId(n2, c2) <==> n1 == n2 && c1 == c2
  {
    if FallbackVoiceId(n1, c1) == FallbackVoiceId(n2, c2) {
      FallbackDecodes(n1, c1);
      FallbackDecodes(n2, c2);
    }
  }

  /** Fallback identifiers are never negative and fit in 24 bits. */
  lemma FallbackRange(note: U8, channel: U8)
    ensures 0 <= FallbackVoiceId(note, channel) < 0x100_0000
  {
  }
}
