/** The inclusion promise (`GuaranteeConfig`, src/sequencer.rs). Durations are whole milliseconds. */
module Guarantees {
  import opened Bytes

  datatype GuaranteeConfig = GuaranteeConfig(slotMs: nat, maxSlots: nat) {
    /** The product is taken at 128 bits and cut to 64. */
    function WindowSize(): (w: nat)
      ensures w < U64
    {
      slotMs * maxSlots % U64
    }

    /** When the promise to an intent arriving at `now` runs out. */
    function DeadlineFor(now: nat): nat {
      now + WindowSize()
    }

    /** The same in 64 bits, where the sum wraps. */
    function Deadline64(now: nat): nat {
      DeadlineFor(now) % U64
    }
  }

  /** `n` slots of `slotMs`, one after the other. */
  function SlotLengths(slotMs: nat, n: nat): nat {
    if n == 0 then 0 else SlotLengths(slotMs, n - 1) + slotMs
  }

  lemma {:induction false} LengthsAre(slotMs: nat, n: nat)
    ensures SlotLengths(slotMs, n) == slotMs * n
  {
    if n > 0 {
      LengthsAre(slotMs, n - 1);
      assert slotMs * n == slotMs * (n - 1) + slotMs;
    }
  }

  /** The window is `maxSlots` slots long exactly when that fits 64 bits, and otherwise what 64 bits leave of it. */
  lemma WindowIs(g: GuaranteeConfig) returns (wraps: nat)
    ensures SlotLengths(g.slotMs, g.maxSlots) == g.WindowSize() + wraps * U64
    ensures g.WindowSize() == SlotLengths(g.slotMs, g.maxSlots) <==> SlotLengths(g.slotMs, g.maxSlots) < U64
  {
    LengthsAre(g.slotMs, g.maxSlots);
    wraps := g.slotMs * g.maxSlots / U64;
  }

  lemma WrapAdd(x: nat, y: nat)
    ensures (x + y) % U64 == (x % U64 + y) % U64
    ensures x % U64 + y < U64 ==> (x + y) % U64 == x % U64 + y
  {
  }

  /** One more slot lengthens the window by one slot, in 64 bits; no slots promise no time. */
  lemma WindowGrows(slotMs: nat, n: nat)
    ensures GuaranteeConfig(slotMs, 0).WindowSize() == 0
    ensures GuaranteeConfig(slotMs, n + 1).WindowSize() == (GuaranteeConfig(slotMs, n).WindowSize() + slotMs) % U64
    ensures GuaranteeConfig(slotMs, n).WindowSize() + slotMs < U64 ==>
      GuaranteeConfig(slotMs, n + 1).WindowSize() == GuaranteeConfig(slotMs, n).WindowSize() + slotMs
  {
    LengthsAre(slotMs, 0);
    LengthsAre(slotMs, n);
    LengthsAre(slotMs, n + 1);
    WrapAdd(SlotLengths(slotMs, n), slotMs);
  }
}
