// The scene's state and its spin lifecycle: creating the reels, the gated
// spin trigger with its staggered starts and single stop, the per-frame
// wrap rule, result resolution and the timed resets, driven by a logical
// clock that fires the pending delayed calls.

module SlotMachine {
  import opened SlotConfig
  import opened Reel
  import opened Resolution
  import opened Schedule

  class Game {
    /** grid[i, j] is slot j (top to bottom) of reel i (left to right). */
    var grid: array2<Slot>
    var isSlotSpinning: bool
    /** The credit kept as the credit text's "credit" data entry. */
    var credit: int
    var creditText: string
    var creditColor: string
    var wrapperStroke: StrokeStyle
    var spinButtonText: string
    /** Cleared by endGame; nothing sets it again and nothing reads it. */
    var spinButtonActive: bool
    var reelSoundPlaying: bool
    var winSoundPlaying: bool
    /** Logical clock, in milliseconds, and the pending delayed calls. */
    var now: nat
    var events: seq<Event>

    ghost predicate GridShape()
      reads this`grid
    {
      grid.Length0 == ReelCount && grid.Length1 == SlotsPerReel
    }

    /** While no spin is in progress, every slot is at rest at a creation or resting offset. */
    ghost predicate IdleAtRest()
      reads this`grid, this`isSlotSpinning, grid
      requires GridShape()
    {
      !isSlotSpinning ==>
        forall i, j :: 0 <= i < ReelCount && 0 <= j < SlotsPerReel ==>
          grid[i, j].velocity == 0 && (grid[i, j].y == CreateY(j) || grid[i, j].y == RestY(j))
    }

    /** Every slot shows a catalogue symbol. */
    ghost predicate InCatalogue()
      reads this`grid, grid
      requires GridShape()
    {
      forall i, j :: 0 <= i < ReelCount && 0 <= j < SlotsPerReel ==> IsPick(grid[i, j].symbol)
    }

    /** Every slot is at rest at its resting offset: the state right after a stop. */
    ghost predicate AllSettled()
      reads this`grid, grid
      requires GridShape()
    {
      forall i, j :: 0 <= i < ReelCount && 0 <= j < SlotsPerReel ==> grid[i, j].velocity == 0 && grid[i, j].y == RestY(j)
    }

    ghost predicate Valid()
      reads this`grid, this`isSlotSpinning, this`reelSoundPlaying, this`now, this`events, grid
    {
      GridShape() &&
      InCatalogue() &&
      IdleAtRest() &&
      reelSoundPlaying == isSlotSpinning &&
      WellScheduled(events, now, isSlotSpinning)
    }

    /** create: the reels with random symbols at their creation offsets, the credit text at 100. */
    constructor (initial: seq<seq<nat>>)
      requires ValidPicks(initial)
      ensures Valid() && fresh(grid)
      ensures forall i, j :: 0 <= i < ReelCount && 0 <= j < SlotsPerReel ==> grid[i, j] == CreatedSlot(j, initial[i][j])
      ensures !isSlotSpinning && events == [] && now == 0
      ensures credit == StartCredit && creditText == CreditText(StartCredit) && creditColor == CreditTextColor
      ensures wrapperStroke == DefaultStroke
      ensures spinButtonText == SpinButtonDefaultText && spinButtonActive
      ensures !reelSoundPlaying && !winSoundPlaying
    {
      var reels := new Slot[ReelCount, SlotsPerReel];
      for i := 0 to ReelCount
        invariant forall r, j :: 0 <= r < i && 0 <= j < SlotsPerReel ==> reels[r, j] == CreatedSlot(j, initial[r][j])
      {
        for j := 0 to SlotsPerReel
          invariant forall r, c :: 0 <= r < i && 0 <= c < SlotsPerReel ==> reels[r, c] == CreatedSlot(c, initial[r][c])
          invariant forall c :: 0 <= c < j ==> reels[i, c] == CreatedSlot(c, initial[i][c])
        {
          reels[i, j] := CreatedSlot(j, initial[i][j]);
        }
      }
      grid := reels;
      isSlotSpinning := false;
      credit := StartCredit;
      creditText := CreditText(StartCredit);
      creditColor := CreditTextColor;
      wrapperStroke := DefaultStroke;
      spinButtonText := SpinButtonDefaultText;
      spinButtonActive := true;
      reelSoundPlaying := false;
      winSoundPlaying := false;
      now := 0;
      events := [];
    }

    /** startSpin: every slot of reel i starts moving down; nothing else changes. */
    method StartSpin(i: nat)
      requires GridShape() && i < ReelCount
      modifies grid
      ensures forall r, j :: 0 <= r < ReelCount && 0 <= j < SlotsPerReel ==>
        grid[r, j] == if r == i then Started(old(grid[r, j])) else old(grid[r, j])
      ensures old(InCatalogue()) ==> InCatalogue()
    {
      for j := 0 to SlotsPerReel
        invariant forall r, c :: 0 <= r < ReelCount && 0 <= c < SlotsPerReel ==>
          grid[r, c] == if r == i && c < j then Started(old(grid[r, c])) else old(grid[r, c])
      {
        grid[i, j] := Started(grid[i, j]);
      }
    }

    /** stopSpin: every slot of reel i is at rest at its resting offset with a fresh symbol. */
    method StopSpin(i: nat, picks: seq<nat>)
      requires GridShape() && i < ReelCount
      requires |picks| == SlotsPerReel && forall j :: 0 <= j < |picks| ==> IsPick(picks[j])
      modifies grid
      ensures forall r, j :: 0 <= r < ReelCount && 0 <= j < SlotsPerReel ==>
        grid[r, j] == if r == i then Settled(j, picks[j]) else old(grid[r, j])
    {
      for j := 0 to SlotsPerReel
        invariant forall r, c :: 0 <= r < ReelCount && 0 <= c < SlotsPerReel ==>
          grid[r, c] == if r == i && c < j then Settled(c, picks[c]) else old(grid[r, c])
      {
        grid[i, j] := Settled(j, picks[j]);
      }
    }

    /** The staggered starts of spinReels: reel i's start is scheduled i * 300 ms from now. */
    method ScheduleStarts()
      modifies this`events
      ensures events == old(events) + StartSchedule(now, ReelCount)
    {
      for i := 0 to ReelCount
        invariant events == old(events) + StartSchedule(now, i)
      {
        events := events + [Event(now + i * StaggerMs, StartReel(i))];
      }
    }

    /**
     * spinReels: ignored while a spin is in progress; otherwise it raises the
     * flag, starts the reel sound and schedules reel i's start at i * 300 ms
     * and a single stop at 2500 ms.
     */
    method SpinReels()
      requires Valid()
      modifies this`isSlotSpinning, this`reelSoundPlaying, this`spinButtonText, this`events
      ensures Valid()
      ensures old(isSlotSpinning) ==> unchanged(this)
      ensures !old(isSlotSpinning) ==>
        isSlotSpinning && reelSoundPlaying && spinButtonText == SpinButtonSpinningText &&
        events == old(events) + SpinSchedule(now)
    {
      if isSlotSpinning {
        return;
      }
      BeginSpin();
    }

    /** The body of spinReels past its gate. */
    method BeginSpin()
      requires WellScheduled(events, now, false)
      modifies this`isSlotSpinning, this`reelSoundPlaying, this`spinButtonText, this`events
      ensures isSlotSpinning && reelSoundPlaying && spinButtonText == SpinButtonSpinningText
      ensures events == old(events) + SpinSchedule(now)
      ensures WellScheduled(events, now, true)
    {
      ghost var pending := events;
      SpinKeepsWellScheduled(pending, now);
      isSlotSpinning := true;
      reelSoundPlaying := true;
      spinButtonText := SpinButtonSpinningText;
      ScheduleStarts();
      events := events + [Event(now + SpinDurationMs, StopAll)];
      SpinScheduleAppended(pending, now);
    }

    /** endGame: disables the spin button and nothing else. */
    method EndGame()
      modifies this`spinButtonActive
      ensures !spinButtonActive
    {
      spinButtonActive := false;
    }

    /**
     * checkResult: the middle row decides the round; the frame takes the
     * outcome's accent, the credit takes the reward at once, the text shows
     * the signed reward, both resets are scheduled after the outcome's
     * duration, and a credit of exactly 0 ends the game.
     */
    method CheckResult()
      requires GridShape()
      requires IsPick(grid[0, ReferenceRow].symbol) && IsPick(grid[1, ReferenceRow].symbol) && IsPick(grid[2, ReferenceRow].symbol)
      modifies this`credit, this`creditText, this`creditColor, this`wrapperStroke,
        this`winSoundPlaying, this`spinButtonActive, this`events
      ensures var r := Resolve(old(credit), old(grid[0, ReferenceRow]).Texture(), old(grid[1, ReferenceRow]).Texture(), old(grid[2, ReferenceRow]).Texture());
        credit == r.credit &&
        creditText == DeltaText(r.option.reward) && creditColor == r.option.creditColor &&
        wrapperStroke == StrokeStyle(r.option.wrapperStroke, r.option.wrapperColor) &&
        winSoundPlaying == (old(winSoundPlaying) || r.won) &&
        events == old(events) + RevertSchedule(now, r.option) &&
        spinButtonActive == (old(spinButtonActive) && !r.gameOver)
    {
      var r := Resolve(credit, grid[0, ReferenceRow].Texture(), grid[1, ReferenceRow].Texture(), grid[2, ReferenceRow].Texture());
      if r.won {
        winSoundPlaying := true;
      }
      wrapperStroke := StrokeStyle(r.option.wrapperStroke, r.option.wrapperColor);
      events := events + [Event(now + r.option.effectDuration, RevertWrapper)];
      credit := r.credit;
      creditText := DeltaText(r.option.reward);
      creditColor := r.option.creditColor;
      events := events + [Event(now + r.option.effectDuration, RevertCredit)];
      if credit == 0 {
        EndGame();
      }
    }

    /** The loop of the stop callback: stopSpin on every reel in turn. */
    method StopReels(picks: seq<seq<nat>>)
      requires GridShape() && ValidPicks(picks)
      modifies grid
      ensures forall i, j :: 0 <= i < ReelCount && 0 <= j < SlotsPerReel ==> grid[i, j] == Settled(j, picks[i][j])
      ensures InCatalogue() && AllSettled()
    {
      for i := 0 to ReelCount
        invariant forall r, j :: 0 <= r < i && 0 <= j < SlotsPerReel ==> grid[r, j] == Settled(j, picks[r][j])
      {
        StopSpin(i, picks[i]);
      }
    }

    /**
     * The stop callback of spinReels: every reel settles, the reel sound
     * stops, the flag is cleared and the round is resolved.
     */
    method FinishSpin(picks: seq<seq<nat>>)
      requires GridShape() && ValidPicks(picks)
      modifies grid, this`isSlotSpinning, this`credit, this`creditText, this`creditColor, this`wrapperStroke,
        this`spinButtonText, this`spinButtonActive, this`reelSoundPlaying, this`winSoundPlaying, this`now, this`events
      ensures grid == old(grid) && now == old(now)
      ensures forall i, j :: 0 <= i < ReelCount && 0 <= j < SlotsPerReel ==> grid[i, j] == Settled(j, picks[i][j])
      ensures InCatalogue() && AllSettled()
      ensures !isSlotSpinning && !reelSoundPlaying && spinButtonText == SpinButtonDefaultText
      ensures var r := Resolve(old(credit), Symbols[picks[0][ReferenceRow]], Symbols[picks[1][ReferenceRow]], Symbols[picks[2][ReferenceRow]]);
        credit == r.credit &&
        creditText == DeltaText(r.option.reward) && creditColor == r.option.creditColor &&
        wrapperStroke == StrokeStyle(r.option.wrapperStroke, r.option.wrapperColor) &&
        winSoundPlaying == (old(winSoundPlaying) || r.won) &&
        events == old(events) + RevertSchedule(now, r.option) &&
        spinButtonActive == (old(spinButtonActive) && !r.gameOver)
    {
      StopReels(picks);
      reelSoundPlaying := false;
      isSlotSpinning := false;
      spinButtonText := SpinButtonDefaultText;
      CheckResult();
    }

    /** The frame's stroke reset: back to the default width and colour, whatever it was. */
    method ResetWrapperStroke()
      modifies this`wrapperStroke
      ensures wrapperStroke == DefaultStroke
      ensures credit == old(credit) && creditText == old(creditText) && creditColor == old(creditColor) &&
        winSoundPlaying == old(winSoundPlaying) && isSlotSpinning == old(isSlotSpinning) &&
        spinButtonText == old(spinButtonText) && spinButtonActive == old(spinButtonActive)
    {
      wrapperStroke := DefaultStroke;
    }

    /** The credit text reset: the plain text of the credit held when it fires; the win sound stops. */
    method ResetCreditText()
      modifies this`creditColor, this`creditText, this`winSoundPlaying
      ensures creditColor == CreditTextColor && creditText == CreditText(credit) && !winSoundPlaying
      ensures credit == old(credit) && wrapperStroke == old(wrapperStroke) && isSlotSpinning == old(isSlotSpinning) &&
        spinButtonText == old(spinButtonText) && spinButtonActive == old(spinButtonActive) &&
        now == old(now) && events == old(events)
    {
      creditColor := CreditTextColor;
      creditText := CreditText(credit);
      if winSoundPlaying {
        winSoundPlaying := false;
      }
    }

    /** One abstract physics step: every moving slot goes down by step. */
    method Fall(step: nat)
      requires Valid()
      modifies grid
      ensures Valid()
      ensures forall i, j :: 0 <= i < ReelCount && 0 <= j < SlotsPerReel ==> grid[i, j] == Fallen(old(grid[i, j]), step)
    {
      for i := 0 to ReelCount
        invariant forall r, c :: 0 <= r < ReelCount && 0 <= c < SlotsPerReel ==>
          grid[r, c] == if r < i then Fallen(old(grid[r, c]), step) else old(grid[r, c])
      {
        for j := 0 to SlotsPerReel
          invariant forall r, c :: 0 <= r < ReelCount && 0 <= c < SlotsPerReel ==>
            grid[r, c] == if r < i || (r == i && c < j) then Fallen(old(grid[r, c]), step) else old(grid[r, c])
        {
          grid[i, j] := Fallen(grid[i, j], step);
        }
      }
    }

    /**
     * update: every slot below the threshold goes back to the top with a
     * fresh symbol; afterwards no slot is below the threshold.
     */
    method Update(picks: seq<seq<nat>>)
      requires Valid() && ValidPicks(picks)
      modifies grid
      ensures Valid()
      ensures forall i, j :: 0 <= i < ReelCount && 0 <= j < SlotsPerReel ==> grid[i, j] == Wrapped(old(grid[i, j]), picks[i][j])
      ensures forall i, j :: 0 <= i < ReelCount && 0 <= j < SlotsPerReel ==> grid[i, j].y <= WrapThreshold
    {
      for i := 0 to ReelCount
        invariant forall r, c :: 0 <= r < ReelCount && 0 <= c < SlotsPerReel ==>
          grid[r, c] == if r < i then Wrapped(old(grid[r, c]), picks[r][c]) else old(grid[r, c])
      {
        for j := 0 to SlotsPerReel
          invariant forall r, c :: 0 <= r < ReelCount && 0 <= c < SlotsPerReel ==>
            grid[r, c] == if r < i || (r == i && c < j) then Wrapped(old(grid[r, c]), picks[r][c]) else old(grid[r, c])
        {
          if grid[i, j].y > WrapThreshold {
            grid[i, j] := grid[i, j].(y := WrapY, symbol := picks[i][j]);
          }
        }
      }
    }

    /** Takes the earliest pending call, which is not the stop, off the list and advances the clock to its time. */
    method Advance() returns (a: Action)
      requires Valid() && events != [] && !events[Earliest(events)].action.StopAll?
      modifies this`events, this`now
      ensures Valid()
      ensures a == old(events)[Earliest(old(events))].action
      ensures events == RemoveAt(old(events), Earliest(old(events)))
      ensures now == old(events)[Earliest(old(events))].fireAt && old(now) <= now
      ensures a.StartReel? ==> isSlotSpinning && a.reel < ReelCount
    {
      var k := Earliest(events);
      a := events[k].action;
      assert events[k] in events;
      FireKeepsWellScheduled(events, now, isSlotSpinning);
      now := events[k].fireAt;
      events := RemoveAt(events, k);
    }

    /** A start fires: its reel starts moving; the spin goes on. */
    method FireStart()
      requires Valid() && events != [] && events[Earliest(events)].action.StartReel?
      modifies this`events, this`now, grid
      ensures Valid() && isSlotSpinning
      ensures credit == old(credit) && creditText == old(creditText) && creditColor == old(creditColor) &&
        wrapperStroke == old(wrapperStroke) && spinButtonText == old(spinButtonText) &&
        spinButtonActive == old(spinButtonActive) && winSoundPlaying == old(winSoundPlaying)
      ensures events == RemoveAt(old(events), Earliest(old(events)))
      ensures now == old(events)[Earliest(old(events))].fireAt && old(now) <= now
      ensures var r := old(events)[Earliest(old(events))].action.reel;
        forall i, j :: 0 <= i < ReelCount && 0 <= j < SlotsPerReel ==>
          grid[i, j] == if i == r then Started(old(grid[i, j])) else old(grid[i, j])
    {
      var a := Advance();
      StartSpin(a.reel);
    }

    /**
     * The stop fires: it is the only pending call and a spin is in progress,
     * so every start has fired before it. The reels settle and the round is
     * resolved; the resets of the resolution are then all that is pending.
     */
    method FireStop(picks: seq<seq<nat>>)
      requires Valid() && ValidPicks(picks)
      requires events != [] && events[Earliest(events)].action.StopAll?
      modifies grid, this`isSlotSpinning, this`credit, this`creditText, this`creditColor, this`wrapperStroke,
        this`spinButtonText, this`spinButtonActive, this`reelSoundPlaying, this`winSoundPlaying, this`now, this`events
      ensures Valid() && grid == old(grid)
      ensures |old(events)| == 1 && old(isSlotSpinning) && !isSlotSpinning
      ensures now == old(events)[0].fireAt && old(now) <= now
      ensures forall i, j :: 0 <= i < ReelCount && 0 <= j < SlotsPerReel ==> grid[i, j] == Settled(j, picks[i][j])
      ensures !reelSoundPlaying && spinButtonText == SpinButtonDefaultText
      ensures var r := Resolve(old(credit), Symbols[picks[0][ReferenceRow]], Symbols[picks[1][ReferenceRow]], Symbols[picks[2][ReferenceRow]]);
        credit == r.credit &&
        creditText == DeltaText(r.option.reward) && creditColor == r.option.creditColor &&
        wrapperStroke == StrokeStyle(r.option.wrapperStroke, r.option.wrapperColor) &&
        winSoundPlaying == (old(winSoundPlaying) || r.won) &&
        events == RevertSchedule(now, r.option) &&
        spinButtonActive == (old(spinButtonActive) && !r.gameOver)
    {
      StopFiresAlone(events, now, isSlotSpinning);
      assert events[0] in events;
      now := events[0].fireAt;
      events := [];
      FinishSpin(picks);
      ghost var r := Resolve(old(credit), Symbols[picks[0][ReferenceRow]], Symbols[picks[1][ReferenceRow]], Symbols[picks[2][ReferenceRow]]);
      ResolutionIsWellScheduled(now, r.option);
    }

    /** The stroke reset fires: the frame goes back to its default stroke. */
    method FireRevertWrapper()
      requires Valid() && events != [] && events[Earliest(events)].action.RevertWrapper?
      modifies this`events, this`now, this`wrapperStroke
      ensures Valid()
      ensures events == RemoveAt(old(events), Earliest(old(events)))
      ensures now == old(events)[Earliest(old(events))].fireAt && old(now) <= now
      ensures wrapperStroke == DefaultStroke
      ensures credit == old(credit) && creditText == old(creditText) && creditColor == old(creditColor) &&
        winSoundPlaying == old(winSoundPlaying) && isSlotSpinning == old(isSlotSpinning) &&
        spinButtonText == old(spinButtonText) && spinButtonActive == old(spinButtonActive)
    {
      var a := Advance();
      ResetWrapperStroke();
    }

    /** The credit reset fires: the text shows the current credit in the default colour; the win sound stops. */
    method FireRevertCredit()
      requires Valid() && events != [] && events[Earliest(events)].action.RevertCredit?
      modifies this`events, this`now, this`creditColor, this`creditText, this`winSoundPlaying
      ensures Valid()
      ensures events == RemoveAt(old(events), Earliest(old(events)))
      ensures now == old(events)[Earliest(old(events))].fireAt && old(now) <= now
      ensures creditText == CreditText(credit) && creditColor == CreditTextColor && !winSoundPlaying
      ensures credit == old(credit) && wrapperStroke == old(wrapperStroke) && isSlotSpinning == old(isSlotSpinning) &&
        spinButtonText == old(spinButtonText) && spinButtonActive == old(spinButtonActive)
    {
      var a := Advance();
      ResetCreditText();
    }

    /**
     * Time passes with nothing due: the clock moves to t, no later than any
     * pending call. A spin can then be triggered at any moment between calls.
     */
    method Wait(t: nat)
      requires Valid() && now <= t && forall e :: e in events ==> t <= e.fireAt
      modifies this`now
      ensures Valid() && now == t
    {
      now := t;
    }

    /**
     * The clock: fires the earliest pending delayed call (the first scheduled
     * among equal times), after advancing the clock to its time.
     */
    method Fire(picks: seq<seq<nat>>) returns (fired: bool)
      requires Valid() && ValidPicks(picks)
      modifies grid, this`isSlotSpinning, this`credit, this`creditText, this`creditColor, this`wrapperStroke,
        this`spinButtonText, this`spinButtonActive, this`reelSoundPlaying, this`winSoundPlaying, this`now, this`events
      ensures Valid() && grid == old(grid)
      ensures fired <==> old(events) != []
      ensures !fired ==> unchanged(this) && unchanged(grid)
      ensures fired ==> now == old(events)[Earliest(old(events))].fireAt && old(now) <= now
      ensures fired && old(events)[Earliest(old(events))].action.StartReel? ==>
        var r := old(events)[Earliest(old(events))].action.reel;
        events == RemoveAt(old(events), Earliest(old(events))) && isSlotSpinning && credit == old(credit) &&
        creditText == old(creditText) && creditColor == old(creditColor) && wrapperStroke == old(wrapperStroke) &&
        spinButtonText == old(spinButtonText) && spinButtonActive == old(spinButtonActive) &&
        winSoundPlaying == old(winSoundPlaying) &&
        forall i, j :: 0 <= i < ReelCount && 0 <= j < SlotsPerReel ==>
          grid[i, j] == if i == r then Started(old(grid[i, j])) else old(grid[i, j])
      ensures fired && old(events)[Earliest(old(events))].action.StopAll? ==>
        var r := Resolve(old(credit), Symbols[picks[0][ReferenceRow]], Symbols[picks[1][ReferenceRow]], Symbols[picks[2][ReferenceRow]]);
        |old(events)| == 1 && old(isSlotSpinning) && !isSlotSpinning && !reelSoundPlaying &&
        spinButtonText == SpinButtonDefaultText &&
        (forall i, j :: 0 <= i < ReelCount && 0 <= j < SlotsPerReel ==> grid[i, j] == Settled(j, picks[i][j])) &&
        credit == r.credit &&
        creditText == DeltaText(r.option.reward) && creditColor == r.option.creditColor &&
        wrapperStroke == StrokeStyle(r.option.wrapperStroke, r.option.wrapperColor) &&
        winSoundPlaying == (old(winSoundPlaying) || r.won) &&
        events == RevertSchedule(now, r.option) &&
        spinButtonActive == (old(spinButtonActive) && !r.gameOver)
      ensures fired && old(events)[Earliest(old(events))].action.RevertWrapper? ==>
        events == RemoveAt(old(events), Earliest(old(events))) && unchanged(grid) &&
        wrapperStroke == DefaultStroke && credit == old(credit) && creditText == old(creditText) &&
        creditColor == old(creditColor) && winSoundPlaying == old(winSoundPlaying) &&
        spinButtonText == old(spinButtonText) && spinButtonActive == old(spinButtonActive) &&
        isSlotSpinning == old(isSlotSpinning)
      ensures fired && old(events)[Earliest(old(events))].action.RevertCredit? ==>
        events == RemoveAt(old(events), Earliest(old(events))) && unchanged(grid) &&
        credit == old(credit) && creditText == CreditText(credit) && creditColor == CreditTextColor &&
        !winSoundPlaying && wrapperStroke == old(wrapperStroke) &&
        spinButtonText == old(spinButtonText) && spinButtonActive == old(spinButtonActive) &&
        isSlotSpinning == old(isSlotSpinning)
    {
      if events == [] {
        return false;
      }
      fired := true;
      var a := events[Earliest(events)].action;
      match a
      case StopAll =>
        FireStop(picks);
      case StartReel(_) =>
        FireStart();
      case RevertWrapper =>
        FireRevertWrapper();
      case RevertCredit =>
        FireRevertCredit();
    }
  }
}
