/**
 * How one card is judged for one category
 * (backend/internal/service/recommendation_service.go:110-183): the
 * monthly reward of a benefit rule, the bounded score, and the reason
 * text.
 */
module Scoring {
  import opened Models
  import Text

  // ---------------------------------------------------------------------
  // calculateReward

  /** The reward units a rule can credit. */
  datatype RewardUnit = Cashback | Points | Miles | NoUnit

  /** Currency value of one point and of one mile. */
  const PointValue: real := 0.01
  const MileValue: real := 0.015

  /** The one unit a rule credits: cashback before points before miles. */
  function CreditedUnit(b: CardBenefit): (u: RewardUnit)
    ensures u == Cashback <==> b.cashbackRate > 0.0
    ensures u == Points <==> b.cashbackRate <= 0.0 && b.pointsRate > 0.0
    ensures u == Miles <==> b.cashbackRate <= 0.0 && b.pointsRate <= 0.0 && b.milesRate > 0.0
  {
    if b.cashbackRate > 0.0 then Cashback
    else if b.pointsRate > 0.0 then Points
    else if b.milesRate > 0.0 then Miles
    else NoUnit
  }

  /** Currency earned per unit of eligible spend, for the credited unit. */
  function RewardPerDollar(b: CardBenefit): (f: real)
    ensures ValidBenefit(b) ==> f >= 0.0
  {
    match CreditedUnit(b)
    case Cashback => b.cashbackRate / 100.0
    case Points => b.pointsRate / 100.0 * PointValue
    case Miles => b.milesRate / 100.0 * MileValue
    case NoUnit => 0.0
  }

  /** The spend that earns a reward: the spend, cut down to the cap if there is one. */
  function EligibleSpend(monthlySpent: real, b: CardBenefit): (s: real)
    ensures s <= monthlySpent
    ensures b.cap > 0.0 ==> s <= b.cap && (s == monthlySpent || s == b.cap)
    ensures b.cap <= 0.0 ==> s == monthlySpent
  {
    if b.cap > 0.0 && monthlySpent > b.cap then b.cap else monthlySpent
  }

  /**
   * The monthly reward of a rule for a category total: nothing below the
   * minimum spend; otherwise the eligible spend converted in the first
   * unit with a positive rate.
   */
  function CalculateReward(monthlySpent: real, b: CardBenefit): (reward: real)
    ensures monthlySpent < b.minSpend ==> reward == 0.0
    ensures CreditedUnit(b) == NoUnit ==> reward == 0.0
    ensures ValidBenefit(b) && monthlySpent >= 0.0 ==> reward >= 0.0
  {
    if monthlySpent < b.minSpend then 0.0
    else EligibleSpend(monthlySpent, b) * RewardPerDollar(b)
  }

  /** The reward at or above the minimum spend, unit by unit. */
  lemma RewardByUnit(monthlySpent: real, b: CardBenefit)
    requires monthlySpent >= b.minSpend
    ensures b.cashbackRate > 0.0 ==>
      CalculateReward(monthlySpent, b) == EligibleSpend(monthlySpent, b) * (b.cashbackRate / 100.0)
    ensures b.cashbackRate <= 0.0 && b.pointsRate > 0.0 ==>
      CalculateReward(monthlySpent, b) == EligibleSpend(monthlySpent, b) * (b.pointsRate / 100.0) * PointValue
    ensures b.cashbackRate <= 0.0 && b.pointsRate <= 0.0 && b.milesRate > 0.0 ==>
      CalculateReward(monthlySpent, b) == EligibleSpend(monthlySpent, b) * (b.milesRate / 100.0) * MileValue
  {
  }

  /** Spend beyond a positive cap earns nothing more than the cap itself does. */
  lemma RewardFlatBeyondCap(monthlySpent: real, b: CardBenefit)
    requires b.cap > 0.0 && monthlySpent > b.cap
    requires b.minSpend <= b.cap
    ensures CalculateReward(monthlySpent, b) == CalculateReward(b.cap, b)
  {
  }

  /**
   * The cap is checked after the minimum spend, so when the cap lies
   * below the minimum spend the cap itself earns nothing while larger
   * spends earn the capped reward.
   */
  lemma CapBelowMinSpendBreaksFlatness()
    ensures var b := CardBenefit(0, 0, 0, 5.0, 0.0, 0.0, 100.0, 200.0, "");
      CalculateReward(300.0, b) == 5.0 && CalculateReward(b.cap, b) == 0.0
  {
  }

  /** A cap of 0 means no cap: the whole spend is eligible. */
  lemma ZeroCapIsUncapped(monthlySpent: real, b: CardBenefit)
    requires b.cap == 0.0 && monthlySpent >= b.minSpend
    ensures CalculateReward(monthlySpent, b) == monthlySpent * RewardPerDollar(b)
  {
  }

  /** A rule with every column at its default earns nothing. */
  lemma DefaultBenefitEarnsNothing(monthlySpent: real, id: Id, cardID: Id, categoryID: Id)
    ensures CalculateReward(monthlySpent, DefaultBenefit(id, cardID, categoryID)) == 0.0
  {
  }

  /**
   * Only the first unit with a positive rate is credited: the lower-priority
   * rates do not change the reward.
   */
  lemma OnlyCreditedUnitCounts(monthlySpent: real, b: CardBenefit)
    ensures b.cashbackRate > 0.0 ==>
      CalculateReward(monthlySpent, b) == CalculateReward(monthlySpent, b.(pointsRate := 0.0, milesRate := 0.0))
    ensures b.cashbackRate <= 0.0 && b.pointsRate > 0.0 ==>
      CalculateReward(monthlySpent, b) == CalculateReward(monthlySpent, b.(milesRate := 0.0))
  {
  }

  lemma MulLeftMonotone(x: real, y: real, f: real)
    requires x <= y && f >= 0.0
    ensures x * f <= y * f
  {
    assert y * f - x * f == (y - x) * f;
  }

  lemma ProductsOrdered(p: real, q: real, x: real, y: real, f: real)
    requires p == x * f && q == y * f
    requires x <= y && f >= 0.0
    ensures p <= q
  {
    MulLeftMonotone(x, y, f);
  }

  /** With non-negative rates, spending more never earns less. */
  lemma RewardMonotone(s1: real, s2: real, b: CardBenefit)
    requires ValidBenefit(b)
    requires 0.0 <= s1 <= s2
    ensures CalculateReward(s1, b) <= CalculateReward(s2, b)
  {
    if s1 >= b.minSpend {
      ProductsOrdered(CalculateReward(s1, b), CalculateReward(s2, b),
        EligibleSpend(s1, b), EligibleSpend(s2, b), RewardPerDollar(b));
    }
  }

  /** A positive cap bounds the reward, whatever the spend. */
  lemma RewardBoundedByCap(monthlySpent: real, b: CardBenefit)
    requires ValidBenefit(b) && b.cap > 0.0
    ensures CalculateReward(monthlySpent, b) <= b.cap * RewardPerDollar(b)
  {
    if monthlySpent >= b.minSpend {
      MulLeftMonotone(EligibleSpend(monthlySpent, b), b.cap, RewardPerDollar(b));
    }
  }

  // ---------------------------------------------------------------------
  // calculateScore

  const MaxScore: real := 100.0

  /**
   * The score before it is bounded: the net benefit, plus a bonus for each
   * positive rate (all of them, even though only one unit is credited),
   * minus half the annual fee.
   */
  function RawScore(netBenefit: real, annualFee: real, b: CardBenefit): (s: real)
    ensures ValidBenefit(b) ==> s >= netBenefit - annualFee * 0.5
  {
    var s := netBenefit;
    var s := if b.cashbackRate > 0.0 then s + b.cashbackRate * 10.0 else s;
    var s := if b.pointsRate > 0.0 then s + b.pointsRate * 8.0 else s;
    var s := if b.milesRate > 0.0 then s + b.milesRate * 12.0 else s;
    s - annualFee * 0.5
  }

  /** math.Max(0, math.Min(100, x)). */
  function Clamp(x: real): (c: real)
    ensures 0.0 <= c <= MaxScore
    ensures 0.0 <= x <= MaxScore ==> c == x
    ensures x < 0.0 ==> c == 0.0
    ensures x > MaxScore ==> c == MaxScore
  {
    if x < 0.0 then 0.0 else if x > MaxScore then MaxScore else x
  }

  /** math.Round(x*100)/100 for x >= 0: to the nearest hundredth, halves up. */
  function Round2(x: real): (r: real)
    requires x >= 0.0
    ensures x - 0.005 < r <= x + 0.005
    ensures (r * 100.0).Floor as real == r * 100.0
  {
    ((x * 100.0 + 0.5).Floor as real) / 100.0
  }

  lemma FloorMonotone(x: real, y: real)
    requires x <= y
    ensures x.Floor <= y.Floor
  {
  }

  lemma Round2Monotone(x: real, y: real)
    requires 0.0 <= x <= y
    ensures Round2(x) <= Round2(y)
  {
    FloorMonotone(x * 100.0 + 0.5, y * 100.0 + 0.5);
  }

  /** Round2 leaves the two ends of the score range where they are. */
  lemma Round2Ends()
    ensures Round2(0.0) == 0.0 && Round2(MaxScore) == MaxScore
  {
    assert (0.0 * 100.0 + 0.5).Floor == 0;
    assert (MaxScore * 100.0 + 0.5).Floor == 10000;
  }

  /**
   * The score: the raw score bounded to [0, 100], rounded to two decimals.
   */
  function CalculateScore(netBenefit: real, annualFee: real, b: CardBenefit): (score: real)
    ensures 0.0 <= score <= MaxScore
    ensures (score * 100.0).Floor as real == score * 100.0
    ensures Clamp(RawScore(netBenefit, annualFee, b)) - 0.005 < score
    ensures score <= Clamp(RawScore(netBenefit, annualFee, b)) + 0.005
    ensures RawScore(netBenefit, annualFee, b) >= MaxScore ==> score == MaxScore
    ensures RawScore(netBenefit, annualFee, b) <= 0.0 ==> score == 0.0
  {
    Round2Ends();
    Round2Monotone(Clamp(RawScore(netBenefit, annualFee, b)), MaxScore);
    Round2(Clamp(RawScore(netBenefit, annualFee, b)))
  }

  /** A larger net benefit never lowers the score. */
  lemma ScoreMonotoneInNetBenefit(n1: real, n2: real, annualFee: real, b: CardBenefit)
    requires n1 <= n2
    ensures CalculateScore(n1, annualFee, b) <= CalculateScore(n2, annualFee, b)
  {
    Round2Monotone(Clamp(RawScore(n1, annualFee, b)), Clamp(RawScore(n2, annualFee, b)));
  }

  /**
   * The score a card gets for a category, as the generator computes it
   * from the monthly reward and the card's annual fee.
   */
  function CardScore(monthlyReward: real, annualFee: real, b: CardBenefit): (score: real)
    ensures 0.0 <= score <= MaxScore
  {
    CalculateScore(monthlyReward * 12.0 - annualFee, annualFee, b)
  }

  /** Between two otherwise equal offers, the one with the lower fee never scores lower. */
  lemma ScoreAntitoneInFee(monthlyReward: real, fee1: real, fee2: real, b: CardBenefit)
    requires fee1 <= fee2
    ensures CardScore(monthlyReward, fee2, b) <= CardScore(monthlyReward, fee1, b)
  {
    var r1 := RawScore(monthlyReward * 12.0 - fee1, fee1, b);
    var r2 := RawScore(monthlyReward * 12.0 - fee2, fee2, b);
    assert r2 <= r1;
    Round2Monotone(Clamp(r2), Clamp(r1));
  }

  /** For a fixed card and rule, a larger category total never scores lower. */
  lemma ScoreMonotoneInSpend(s1: real, s2: real, annualFee: real, b: CardBenefit)
    requires ValidBenefit(b) && 0.0 <= s1 <= s2
    ensures CardScore(CalculateReward(s1, b), annualFee, b) <= CardScore(CalculateReward(s2, b), annualFee, b)
  {
    RewardMonotone(s1, s2, b);
    ScoreMonotoneInNetBenefit(
      CalculateReward(s1, b) * 12.0 - annualFee, CalculateReward(s2, b) * 12.0 - annualFee, annualFee, b);
  }

  /**
   * A dining rule of 6% capped at 500 on a 600 spend: the reward is 30 and
   * the score saturates at 100, with or without a 120 annual fee.
   */
  lemma DiningScenario()
    ensures var b := CardBenefit(1, 1, 1, 6.0, 0.0, 0.0, 500.0, 0.0, "");
      && CalculateReward(600.0, b) == 30.0
      && CardScore(30.0, 0.0, b) == MaxScore
      && CardScore(30.0, 120.0, b) == MaxScore
  {
  }

  // ---------------------------------------------------------------------
  // generateReason

  /**
   * The opening of the reason: the cashback rate, replaced by the points
   * rate when that is positive, replaced in turn by the miles rate when
   * that is positive (the reverse of the reward's priority).
   */
  function ReasonLead(b: CardBenefit): (p: ReasonPart)
    ensures p.EarnMiles? <==> b.milesRate > 0.0
    ensures p.EarnPoints? <==> b.milesRate <= 0.0 && b.pointsRate > 0.0
    ensures p.EarnPercent? <==> b.milesRate <= 0.0 && b.pointsRate <= 0.0
    ensures p == EarnMiles(b.milesRate) || p == EarnPoints(b.pointsRate) || p == EarnPercent(b.cashbackRate)
  {
    var lead := EarnPercent(b.cashbackRate);
    var lead := if b.pointsRate > 0.0 then EarnPoints(b.pointsRate) else lead;
    if b.milesRate > 0.0 then EarnMiles(b.milesRate) else lead
  }

  /**
   * The reason of a recommendation: the opening, the monthly reward, the
   * annual fee when there is one, and the net annual benefit
   * (12 months of reward less the fee).
   */
  function GenerateReason(b: CardBenefit, monthlyReward: real, annualFee: real): (r: Reason)
    ensures |r| == if annualFee > 0.0 then 4 else 3
    ensures r[0] == ReasonLead(b)
    ensures r[1] == MonthlyReward(monthlyReward)
    ensures (exists i :: 0 <= i < |r| && r[i].AnnualFee?) <==> annualFee > 0.0
    ensures annualFee > 0.0 ==> r[2] == AnnualFee(annualFee)
    ensures r[|r| - 1] == NetAnnualBenefit(monthlyReward * 12.0 - annualFee)
  {
    var annualReward := monthlyReward * 12.0;
    var netBenefit := annualReward - annualFee;
    var r := [ReasonLead(b), MonthlyReward(monthlyReward)]
      + (if annualFee > 0.0 then [AnnualFee(annualFee)] else [])
      + [NetAnnualBenefit(netBenefit)];
    assert annualFee > 0.0 ==> r[2].AnnualFee?;
    assert annualFee <= 0.0 ==> forall i :: 0 <= i < |r| ==> !r[i].AnnualFee?;
    r
  }

  /**
   * When a rule has both a cashback and a miles rate, the reward is paid
   * in cashback but the reason speaks of miles.
   */
  lemma ReasonNamesOtherUnitThanReward(b: CardBenefit, monthlyReward: real, annualFee: real)
    requires b.cashbackRate > 0.0 && b.milesRate > 0.0
    ensures CreditedUnit(b) == Cashback
    ensures GenerateReason(b, monthlyReward, annualFee)[0] == EarnMiles(b.milesRate)
  {
  }

  // The text of a reason. `format(x, d)` stands for fmt's "%.<d>f" of x;
  // real-to-decimal conversion is not modelled.

  /** The text of one piece: each kind opens with its own fixed words. */
  function RenderPart(p: ReasonPart, format: (real, nat) -> string): (text: string)
    ensures (p.EarnPercent? || p.EarnPoints? || p.EarnMiles?) ==> "Earn " <= text
    ensures p.MonthlyReward? ==> "on this category. Expected monthly reward: $" <= text
    ensures p.AnnualFee? ==> ", Annual fee: $" <= text
    ensures p.NetAnnualBenefit? ==> ", Net annual benefit: $" <= text
  {
    match p
    case EarnPercent(x) => "Earn " + format(x, 2) + "% "
    case EarnPoints(x) => "Earn " + format(x, 1) + "x points "
    case EarnMiles(x) => "Earn " + format(x, 1) + "x miles "
    case MonthlyReward(x) => "on this category. Expected monthly reward: $" + format(x, 2)
    case AnnualFee(x) => ", Annual fee: $" + format(x, 0)
    case NetAnnualBenefit(x) => ", Net annual benefit: $" + format(x, 2)
  }

  /** The text of a reason: its pieces' texts, in order. */
  function Render(r: Reason, format: (real, nat) -> string): (text: string)
    ensures r == [] ==> text == ""
    ensures r != [] ==> RenderPart(r[0], format) <= text
  {
    if r == [] then "" else
      var head := RenderPart(r[0], format);
      var rest := Render(r[1..], format);
      assert (head + rest)[..|head|] == head;
      head + rest
  }

  lemma {:induction false} RenderAppend(r1: Reason, r2: Reason, format: (real, nat) -> string)
    ensures Render(r1 + r2, format) == Render(r1, format) + Render(r2, format)
  {
    if r1 == [] {
      assert r1 + r2 == r2;
    } else {
      assert (r1 + r2)[0] == r1[0];
      assert (r1 + r2)[1..] == r1[1..] + r2;
      RenderAppend(r1[1..], r2, format);
    }
  }

  /** The text of a reason whose first part is an opening starts with "Earn ". */
  lemma RenderOpensWithEarn(r: Reason, format: (real, nat) -> string)
    requires r != [] && (r[0].EarnPercent? || r[0].EarnPoints? || r[0].EarnMiles?)
    ensures "Earn " <= Render(r, format)
  {
    var head := RenderPart(r[0], format);
    assert "Earn " <= head;
    assert head <= Render(r, format);
  }

  lemma RenderSingle(p: ReasonPart, format: (real, nat) -> string)
    ensures Render([p], format) == RenderPart(p, format)
  {
    assert [p][1..] == [];
  }

  /** The text of a reason with a fee part carries the fee clause. */
  lemma RenderHasFeeClause(before: Reason, fee: real, after: Reason, format: (real, nat) -> string)
    ensures Text.Contains(Render(before + [AnnualFee(fee)] + after, format), ", Annual fee: $")
  {
    RenderAppend(before + [AnnualFee(fee)], after, format);
    RenderAppend(before, [AnnualFee(fee)], format);
    RenderSingle(AnnualFee(fee), format);
    Text.ContainsPiecePrefix(Render(before, format), RenderPart(AnnualFee(fee), format), Render(after, format), ", Annual fee: $");
  }

  /**
   * The rendered reason opens with "Earn ", and carries the fee clause
   * whenever the card has an annual fee.
   */
  lemma ReasonText(b: CardBenefit, monthlyReward: real, annualFee: real, format: (real, nat) -> string)
    ensures var text := Render(GenerateReason(b, monthlyReward, annualFee), format);
      && "Earn " <= text
      && (annualFee > 0.0 ==> Text.Contains(text, ", Annual fee: $"))
  {
    var r := GenerateReason(b, monthlyReward, annualFee);
    RenderOpensWithEarn(r, format);
    if annualFee > 0.0 {
      assert r == r[..2] + [AnnualFee(annualFee)] + r[3..];
      RenderHasFeeClause(r[..2], annualFee, r[3..], format);
    }
  }
}
