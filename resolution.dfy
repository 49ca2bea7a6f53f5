// Result resolution: the all-three-equal win rule on the middle row, the
// credit delta, the exact-zero game-over test and the two credit texts.

module Resolution {
  import opened SlotConfig
  import opened Decimal

  /** The round is won when the set of the three middle symbols has one element. */
  predicate IsRoundWon(first: string, second: string, third: string) {
    |{first, second, third}| == 1
  }

  /** The set-size test is exactly "all three are the same symbol". */
  lemma IsRoundWonIff(first: string, second: string, third: string)
    ensures IsRoundWon(first, second, third) <==> first == second && second == third
  {
    if first != second {
      assert {first, second} <= {first, second, third};
      assert |{first, second}| == 2;
    } else if second != third {
      assert {second, third} <= {first, second, third};
      assert |{second, third}| == 2;
    }
  }

  /** Outcome options chosen by the win test. */
  function OptionFor(won: bool): RoundOption {
    if won then RoundWin else RoundLoss
  }

  /** What one resolution decides. */
  datatype Outcome = Outcome(won: bool, option: RoundOption, credit: int, gameOver: bool)

  /** Resolution of a round from the credit before it and the three middle symbols. */
  function Resolve(creditBefore: int, first: string, second: string, third: string): (r: Outcome)
    ensures r.won <==> first == second && second == third
    ensures r.option == OptionFor(r.won)
    ensures r.credit == creditBefore + (if r.won then 100 else -20)
    ensures r.option.effectDuration == (if r.won then 2000 else 1000)
    ensures r.gameOver <==> r.credit == 0
  {
    IsRoundWonIff(first, second, third);
    var won := IsRoundWon(first, second, third);
    var option := OptionFor(won);
    var credit := creditBefore + option.reward;
    Outcome(won, option, credit, credit == 0)
  }

  const CreditPrefix: string := "Credit: "
  const Euro: char := '€'

  /** The text between the prefix and the euro sign, when the text has that frame. */
  function Amount(s: string): (a: Option<string>)
  {
    if |s| > |CreditPrefix| && s[..|CreditPrefix|] == CreditPrefix && s[|s| - 1] == Euro
    then Some(s[|CreditPrefix|..|s| - 1])
    else None
  }

  /** The resting credit text: "Credit: {credit}€". */
  function CreditText(credit: int): string
  {
    CreditPrefix + IntToDecimal(credit) + [Euro]
  }

  /** The transient credit text: the signed reward, '+' only for a positive reward. */
  function DeltaText(reward: int): string
  {
    CreditPrefix + (if reward > 0 then "+" else "") + IntToDecimal(reward) + [Euro]
  }

  /** The resting text shows exactly the ledger value between the prefix and the euro sign. */
  lemma CreditTextShowsCredit(credit: int)
    ensures Amount(CreditText(credit)).Some?
    ensures ParseDecimal(Amount(CreditText(credit)).value) == Some(credit)
  {
    IntToDecimalRoundTrip(credit);
    var s := CreditText(credit);
    assert s[..|CreditPrefix|] == CreditPrefix;
    assert s[|CreditPrefix|..|s| - 1] == IntToDecimal(credit);
  }

  /**
   * The transient text shows the reward between the prefix and the euro
   * sign, signed with '+' exactly when it is positive.
   */
  lemma DeltaTextShowsReward(reward: int)
    ensures Amount(DeltaText(reward)).Some?
    ensures var amount := Amount(DeltaText(reward)).value;
      |amount| > 0 &&
      (amount[0] == '+' <==> reward > 0) &&
      (reward > 0 ==> ParseDecimal(amount[1..]) == Some(reward)) &&
      (reward <= 0 ==> ParseDecimal(amount) == Some(reward))
  {
    IntToDecimalRoundTrip(reward);
    IntToDecimalSign(reward);
    var amount := (if reward > 0 then "+" else "") + IntToDecimal(reward);
    var s := DeltaText(reward);
    assert s == CreditPrefix + amount + [Euro];
    assert s[..|CreditPrefix|] == CreditPrefix;
    assert s[|CreditPrefix|..|s| - 1] == amount;
    assert reward > 0 ==> amount[1..] == IntToDecimal(reward);
    assert reward <= 0 ==> amount == IntToDecimal(reward);
  }

  /** The examples of a round that starts from the initial credit. */
  lemma FirstRoundFromStartCredit(first: string, second: string, third: string)
    ensures var r := Resolve(StartCredit, first, second, third);
      (first == second == third ==> r.credit == 200 && DeltaText(r.option.reward) == "Credit: +100€") &&
      (!(first == second == third) ==> r.credit == 80 && DeltaText(r.option.reward) == "Credit: -20€") &&
      !r.gameOver
  {
  }

  /**
   * There is no clamping: a loss from a credit of 0 leaves -20, and a
   * negative credit does not end the game.
   */
  lemma LossBelowZeroIsNotGameOver()
    ensures var r := Resolve(0, Symbols[0], Symbols[1], Symbols[1]);
      !r.won && r.credit == -20 && !r.gameOver
  {
    SymbolsDistinct(0, 1);
  }

  /**
   * Both rewards are multiples of 20 and so is the starting credit: from a
   * positive multiple of 20 one round never goes below 0, so a run of
   * losses always meets the exact-zero test on its way down. The test also
   * fires on a win that brings a credit of -100 back to 0.
   */
  lemma ResolveKeepsStepsOfTwenty(creditBefore: int, first: string, second: string, third: string)
    requires creditBefore % 20 == 0
    ensures var r := Resolve(creditBefore, first, second, third);
      r.credit % 20 == 0 &&
      (creditBefore > 0 ==> r.credit >= 0) &&
      (r.credit == 0 <==> (creditBefore == 20 && !r.won) || (creditBefore == -100 && r.won)) &&
      (r.credit == 0 <==> r.gameOver)
  {
  }
}
