// One symbol slot of a reel and the per-slot rules the scene applies to it:
// the spin start, the stop snap, the per-frame downward step and the
// wrap-around recycle.

module Reel {
  import opened SlotConfig

  /**
   * A symbol image of a reel: vertical position, the catalogue position of
   * its texture key, vertical velocity.
   */
  datatype Slot = Slot(y: int, symbol: nat, velocity: int) {
    /** The texture key the image shows. */
    function Texture(): string
      requires symbol < |Symbols|
    {
      Symbols[symbol]
    }
  }

  /** A slot as created: at its creation offset, at rest, with the oracle's symbol. */
  function CreatedSlot(j: nat, pick: nat): Slot
    requires IsPick(pick)
  {
    Slot(CreateY(j), pick, 0)
  }

  /** startSpin on one slot: only the velocity changes. */
  function Started(s: Slot): (r: Slot)
    ensures r.velocity > 0 && r.y == s.y && r.symbol == s.symbol
  {
    s.(velocity := ReelsYVelocityWhenSpinning)
  }

  /**
   * stopSpin on slot j: at rest, at its resting offset, showing the oracle's
   * new symbol; nothing of the spinning slot survives.
   */
  function Settled(j: nat, pick: nat): Slot
    requires IsPick(pick)
  {
    Slot(RestY(j), pick, 0)
  }

  /** One abstract frame of motion: a moving slot goes down by step, a resting one stays. */
  function Fallen(s: Slot, step: nat): (r: Slot)
    ensures r.velocity == s.velocity && r.symbol == s.symbol
    ensures s.velocity == 0 ==> r == s
    ensures s.y <= r.y
  {
    if s.velocity != 0 then s.(y := s.y + step) else s
  }

  /**
   * The update rule: a slot below the threshold goes back to the top with
   * the oracle's symbol; any other slot is left as it is.
   */
  function Wrapped(s: Slot, pick: nat): (r: Slot)
    requires IsPick(pick)
    ensures r.y <= WrapThreshold
    ensures s.y <= WrapThreshold ==> r == s
    ensures s.y > WrapThreshold ==> r.y == 110 && r.symbol == pick && r.velocity == s.velocity
  {
    if s.y > WrapThreshold then s.(y := WrapY, symbol := pick) else s
  }

  /** Wrapping twice with any symbols is wrapping once: the second pass finds nothing below. */
  lemma WrappedIdempotent(s: Slot, pick: nat, pick': nat)
    requires IsPick(pick) && IsPick(pick')
    ensures Wrapped(Wrapped(s, pick), pick') == Wrapped(s, pick)
  {
  }
}
