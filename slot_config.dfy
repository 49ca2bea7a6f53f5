// Game options of the slot machine: the symbol catalogue, the reel geometry,
// the spin timing and the two round outcomes with their rewards.

module SlotConfig {

  /** Texture keys of the symbol catalogue; a slot always shows one of them. */
  const Symbols: seq<string> := [
    "slot-symbol-seven",
    "slot-symbol-cherry",
    "slot-symbol-bell",
    "slot-symbol-bar",
    "slot-symbol-lemon"
  ]

  /** The machine has 3 reels of 3 slots each (both loops in createReels run to 3). */
  const ReelCount: nat := 3
  const SlotsPerReel: nat := 3

  /** The slot index whose symbols decide the round (the highlighted middle row). */
  const ReferenceRow: nat := 1

  const SymbolHeight: nat := 150
  const SpinDurationMs: nat := 2500
  /** Reel i starts spinning i * StaggerMs after the trigger. */
  const StaggerMs: nat := 300
  const ReelsYVelocityWhenSpinning: nat := 1200

  /** A slot further down than this is recycled to WrapY with a fresh symbol. */
  const WrapThreshold: int := 480
  const WrapY: int := 260 - SymbolHeight

  const StartCredit: int := 100
  const CreditTextColor: string := "#ffffff"

  const SpinButtonDefaultText: string := "Spin"
  const SpinButtonSpinningText: string := "Spinning"

  /** The settings of one round outcome. */
  datatype RoundOption = RoundOption(
    name: string,
    creditColor: string,
    wrapperColor: nat,
    wrapperStroke: nat,
    reward: int,
    effectDuration: nat)

  const RoundWin: RoundOption := RoundOption("round_win", "green", 0x008000, 12, 100, 2000)
  const RoundLoss: RoundOption := RoundOption("round_loss", "red", 0xff0000, 10, -20, 1000)

  /** Border of the frame around the reels: line width and colour. */
  datatype StrokeStyle = StrokeStyle(width: nat, color: nat)

  const DefaultStroke: StrokeStyle := StrokeStyle(5, 0xc0c0c0)

  /** The longest time a round's accent and credit delta stay on screen. */
  const MaxEffectDuration: nat := 2000

  /** Vertical position of slot j when the reels are created (SymbolHeight is 150). */
  function CreateY(j: nat): int {
    150 + 150 * j
  }

  /** Vertical position slot j snaps to when its reel stops (SymbolHeight is 150). */
  function RestY(j: nat): int {
    160 + 150 * j
  }

  /** A symbol choice returned by the random oracle is an index into the catalogue. */
  predicate IsPick(p: nat) {
    p < |Symbols|
  }

  /** One oracle choice per slot of the whole machine. */
  predicate ValidPicks(picks: seq<seq<nat>>) {
    |picks| == ReelCount &&
    (forall i :: 0 <= i < ReelCount ==> |picks[i]| == SlotsPerReel) &&
    (forall i, j :: 0 <= i < ReelCount && 0 <= j < SlotsPerReel ==> IsPick(picks[i][j]))
  }

  /** The catalogue has no repeated key, so equal keys mean equal catalogue positions. */
  lemma SymbolsDistinct(a: nat, b: nat)
    requires a < |Symbols| && b < |Symbols|
    ensures Symbols[a] == Symbols[b] <==> a == b
  {
    if a != b {
      assert Symbols[a] != Symbols[b] by {
        assert Symbols[a][12..] != Symbols[b][12..];
      }
    }
  }
}
