# Slot machine: spin lifecycle and result resolution

This project models the scene of a three-reel slot machine written for the
Phaser engine (`src/main.ts`). The model keeps the logic and drops the
engine calls. It covers:

- the 3×3 grid of symbol slots created with random symbols;
- the re-entrancy flag that gates a spin;
- the staggered reel starts and the single stop of a spin;
- the per-frame wrap-around rule;
- the middle-row win rule;
- the credit ledger with its transient and resting texts;
- the exact-zero game-over test;
- the two timed resets that follow a resolution.

The modules are:

- `SlotConfig`: the game options. These are the symbol catalogue, the reel geometry, the timings, the two round outcomes and the default frame stroke.
- `Decimal`: the text a JavaScript template literal gives an integer-valued credit in the range the game reaches (an optional '-' and digits without leading zeros), and a parser for that text. The two are proved to be inverses.
- `Resolution`: the pure part of `checkResult`. It holds the set-size win test, the chosen outcome, the new credit, the game-over test and the two credit texts.
- `Reel`: one slot and the per-slot rules:
  - the spin start;
  - the stop snap;
  - an abstract downward step;
  - the wrap rule.
- `Schedule`: the scene's `delayedCall`s as a list of pending events on a logical clock.
  - The clock always fires the earliest event, and the one scheduled first among equal times.
  - The module defines the events one spin schedules and the events one resolution schedules.
  - It defines the invariant `WellScheduled`, which the timers keep.
- `SlotMachine.Game`: the scene as a class.
  - Its fields are updated in place by methods that mirror `createReels`, `spinReels` and its stop callback, `startSpin`, `stopSpin`, `update`, `checkResult`, `endGame` and the two reset callbacks.
  - The reels are an `array2<Slot>`.
  - `Fire` plays the engine clock: it fires the earliest pending call.

Every random symbol choice is an injected oracle value. This is a catalogue index in `picks` (`Phaser.Utils.Array.GetRandom(symbols)`). A slot stores the catalogue index of its texture key. `Slot.Texture()` gives the key itself, and the win rule compares those keys as the source does.

## Model

| member | source | states |
|---|---|---|
| SlotConfig.SymbolsDistinct | src/main.ts:18-24 | the five texture keys are pairwise distinct, so two slots show the same key exactly when they hold the same catalogue index |
| Decimal.IntToDecimalRoundTrip | src/main.ts:331-340 | the decimal text an integer is rendered with in the credit texts parses back to that integer, negative values included |
| Decimal.IntToDecimalSign | src/main.ts:331-333 | the rendered integer is non-empty and starts with '-' exactly when it is negative |
| Decimal.NoLeadingZero | src/main.ts:338-340 | the digits of a number start with '0' only for 0 itself, so the text is the plain decimal form and not just some text of the same value |
| Resolution.IsRoundWonIff | src/main.ts:301-306 | the set of the three middle keys has size 1 exactly when all three keys are equal; two equal and one different is a loss |
| Resolution.Resolve | src/main.ts:300-308 | won iff the three middle keys are equal; the new credit is the old credit +100 on a win and −20 on a loss, with no clamping; the effect lasts 2000 ms or 1000 ms; game over iff the new credit is exactly 0 |
| Resolution.CreditTextShowsCredit | src/main.ts:338-340 | the resting text is "Credit: " + amount + "€", and the amount reads back as the credit |
| Resolution.DeltaTextShowsReward | src/main.ts:331-333 | the transient text frames the reward; it starts with '+' exactly when the reward is positive, and the rest reads back as the reward |
| Resolution.FirstRoundFromStartCredit | src/main.ts:44-66 | from the starting credit of 100, a win gives 200 and "Credit: +100€", and a loss gives 80 and "Credit: -20€"; neither ends the game |
| Resolution.LossBelowZeroIsNotGameOver | src/main.ts:326-329 | a loss at credit 0 leaves −20, and a negative credit does not end the game |
| Resolution.ResolveKeepsStepsOfTwenty | src/main.ts:346 | from a multiple of 20 the credit stays a multiple of 20 and a positive credit never drops below 0; the credit lands on 0 (game over) exactly after a loss at 20 or a win at −100 |
| Reel.Started | src/main.ts:215-218 | starting a slot gives it a positive downward velocity and keeps its position and symbol |
| Reel.Fallen | src/main.ts:216-218 | a frame moves only moving slots, only downwards, and keeps velocity and symbol |
| Reel.Wrapped | src/main.ts:279-283 | a slot below y = 480 moves to y = 110 with the oracle's symbol; any other slot is left as it is; afterwards the slot is at most at 480 |
| Reel.WrappedIdempotent | src/main.ts:279-283 | a second wrap pass changes nothing, whatever symbols it would pick |
| Schedule.Earliest | src/main.ts:256-263 | the chosen pending call has the minimum fire time, and every call scheduled before it fires strictly later |
| Schedule.FiringOrderIsPermutation | src/main.ts:256-263 | every pending delayed call fires exactly once |
| Schedule.FiringOrderByTime | src/main.ts:256-263 | pending calls fire in non-decreasing time order |
| Schedule.ByTimeFiresAsScheduled | src/main.ts:256-263 | calls scheduled in time order fire in the order they were scheduled |
| Schedule.StartSchedule | src/main.ts:256-260 | reel i's start is scheduled at now + i·300 |
| Schedule.SpinSchedule | src/main.ts:256-263 | a spin schedules the three starts at 0, 300 and 600 ms, then one stop at 2500 ms |
| Schedule.SpinScheduleFiresInOrder | src/main.ts:256-263 | the spin's own calls fire as reel 0, reel 1, reel 2, then the stop |
| Schedule.RevertScheduleFiresInOrder | src/main.ts:317-343 | the stroke reset, scheduled first, fires before the credit reset at the same time |
| Schedule.SpinKeepsWellScheduled | src/main.ts:240-263 | a spin triggered while idle keeps the timer invariant: every start names a reel, and the stop is the last pending call, the only stop, strictly after every other call |
| Schedule.EarliestBeforeAll | src/main.ts:256-263 | no pending call is due before the one that fires next |
| Schedule.RemoveKeepsStopLast | src/main.ts:256-263 | firing a call other than the stop leaves the stop last and strictly after every remaining call |
| Schedule.StopFiresAlone | src/main.ts:263-272 | when the stop fires, a spin is in progress and nothing else is pending: all three starts and every earlier reset have fired |
| Schedule.FireKeepsWellScheduled | src/main.ts:256-343 | firing a start or a reset keeps the timer invariant at the new clock time |
| Schedule.ResolutionIsWellScheduled | src/main.ts:317-343 | for either outcome, the stroke reset and the credit reset, due after its effect duration, are a valid idle schedule (reset bound of 2000 ms) and are due before a spin triggered at the same moment would stop |
| SlotMachine.Game.constructor | src/main.ts:149-212 | the grid holds 3×3 slots at rest at y = 150 + 150·j with the oracle's symbols, and the class invariant holds; the credit is 100 with text "Credit: 100€"; the frame has the default stroke; nothing is spinning or pending |
| SlotMachine.Game.StartSpin | src/main.ts:215-218 | every slot of reel i is started; every other slot is unchanged |
| SlotMachine.Game.StopSpin | src/main.ts:221-228 | every slot of reel i is settled with its oracle symbol; every other slot is unchanged |
| SlotMachine.Game.ScheduleStarts | src/main.ts:256-260 | the three staggered starts are appended to the pending calls |
| SlotMachine.Game.SpinReels | src/main.ts:240-263 | while spinning it changes nothing; from idle it sets the flag, starts the reel sound, shows "Spinning" and appends the spin schedule; the invariant holds afterwards |
| SlotMachine.Game.BeginSpin | src/main.ts:242-263 | from an idle schedule: the flag is set, the reel sound plays, the button reads "Spinning", the spin schedule is appended and the timer invariant now holds for a spin in progress |
| SlotMachine.Game.EndGame | src/main.ts:349-352 | the spin button is deactivated and nothing else changes |
| SlotMachine.Game.CheckResult | src/main.ts:290-347 | the credit, the transient text and colour, the frame stroke and the win sound follow the middle row's resolution; the two resets are appended; the button is deactivated iff the new credit is 0 |
| SlotMachine.Game.StopReels | src/main.ts:264-266 | after stopSpin on every reel, every slot is settled at 160 + 150·j with its oracle symbol, which is in the catalogue |
| SlotMachine.Game.FinishSpin | src/main.ts:263-272 | every slot is settled at 160 + 150·j with its oracle symbol; the flag is clear, the sound is off and the button reads "Spin"; the round is resolved on the new middle row |
| SlotMachine.Game.ResetWrapperStroke | src/main.ts:317-323 | the frame's stroke is the default (5, 0xc0c0c0) whatever it was before |
| SlotMachine.Game.ResetCreditText | src/main.ts:335-343 | the credit text shows the credit held when the reset fires, in the default colour, and the win sound is off |
| SlotMachine.Game.Fall | src/main.ts:216-218 | each slot takes one abstract downward step; the invariant is kept |
| SlotMachine.Game.Update | src/main.ts:275-287 | every slot is wrapped with its oracle symbol; afterwards no slot is below 480; the invariant is kept |
| SlotMachine.Game.Advance | src/main.ts:256-343 | the earliest pending call (not the stop) is removed and the clock moves to its time; a pending start implies a spin in progress |
| SlotMachine.Game.FireStart | src/main.ts:257-259 | the started reel's slots move and the rest of the grid is unchanged |
| SlotMachine.Game.FireStop | src/main.ts:263-272 | the stop fires alone during a spin; the reels settle at 160 + 150·j with fresh symbols; the flag, the reel sound and the button text are reset; credit, texts, colour, stroke, win sound and button follow the resolution; only its two resets stay pending |
| SlotMachine.Game.FireRevertWrapper | src/main.ts:317-323 | the stroke reset fires at its own time, leaves the queue without it, restores the default stroke and changes no other element: credit, credit text and colour, win sound, button and spinning flag are kept |
| SlotMachine.Game.FireRevertCredit | src/main.ts:335-343 | the credit reset fires at its own time, leaves the queue without it, shows the current credit in the default colour and stops the win sound; the stroke, the button and the spinning flag are kept |
| SlotMachine.Game.Wait | src/main.ts:240 | the clock moves to any time up to the next pending call, so a spin can be triggered between calls; the invariant is kept |
| SlotMachine.Game.Fire | src/main.ts:256-343 | the earliest pending call fires at its own time and has its callback's effect: a start moves its reel; the stop fires alone during a spin, settles the reels and resolves the round; each reset restores its own element and keeps every other one, so a reset never reactivates the button or changes the credit; a start changes no text, colour, stroke, button or sound; the invariant `Valid` is kept |

`Valid` is the class invariant that `SpinReels`, `Fall`, `Update`, `Wait` and every `Fire…` method keep. It states:

- the grid is 3×3 and every slot shows a catalogue symbol;
- while idle, every slot is at rest at its creation or resting offset;
- the reel sound plays exactly while spinning;
- the pending calls satisfy `WellScheduled`.

Two behaviours of the code worth noting:

- `endGame` only deactivates the button. `spinReels` never reads that state, so the model does not claim that spins are rejected after game over. The credit can keep moving, and the exact-zero test can fire again on a later round.
- Slots are created at y = 150 + 150·j, but a stop snaps them to y = 160 + 150·j. Both offsets are idle positions in `IdleAtRest`.

## Left out

- Rendering, scene plumbing, `preload` asset loading and the `gameConfig` bootstrap: these are engine calls with no logic.
- Sounds are booleans only (`reelSoundPlaying`, `winSoundPlaying`). Loading and playback are engine I/O.
- Tweens are left out: the spin-button pulse, the stop bounce and `tweens.killAll`. They are decorative, and `killAll` cancels the bounce it follows.
- Physics: velocity integrated per frame in floating point is replaced by `Fall(step)`, an abstract integer downward step for moving slots. Frames are separate calls and are not tied to the logical clock.
- Keyboard and pointer binding, button drawing and the row highlight are input and UI. `spinReels` is the entry point they call.
- `setVelocityX` on each reel group is left out. It runs while the group is still empty, so it affects no slot.
- Randomness: `GetRandom` is an oracle. Its choices arrive as `picks`, catalogue indices checked by `ValidPicks`.
- The text colour is recorded as a string, and the frame stroke as width and colour. Fonts, positions and sizes are not modelled.
- Credit arithmetic and its text: the credit is a JavaScript number, a double, exact only up to 2^53 and printed in exponent form from 1e21. The model uses an unbounded integer printed as plain digits. The two agree on every credit below 2^53 in magnitude; with steps of +100 or −20 per round, that takes far more rounds than any game plays.
- `src/types.ts` is not part of this model beyond the fields of `RoundOption`.
