/**
 * The entities of the card recommender and the bounds their `validate`
 * tags put on them (backend/internal/models/models.go).
 *
 * Go `uint` primary keys become `nat`, `float64` amounts become `real`,
 * strings are `seq<char>`. Timestamps, soft-delete columns and the GORM
 * relation structs that only exist for preloading are not modelled; where
 * the engine needs a relation (a card's benefits) it is an ordinary field.
 */
module Models {

  type Id = nat

  datatype User = User(id: Id, email: string, name: string)

  datatype Category = Category(id: Id, name: string, description: string, icon: string)

  /**
   * One reward rule of a card for one category. Every numeric field
   * defaults to 0; a `cap` of 0 means "no cap" and a `minSpend` of 0 means
   * "no threshold".
   */
  datatype CardBenefit = CardBenefit(
    id: Id,
    cardID: Id,
    categoryID: Id,
    cashbackRate: real,
    pointsRate: real,
    milesRate: real,
    cap: real,
    minSpend: real,
    description: string)

  datatype CreditCard = CreditCard(
    id: Id,
    name: string,
    bank: string,
    cardType: string,
    annualFee: real,
    imageURL: string,
    description: string,
    minIncome: real,
    welcomeBonus: string,
    sourceURL: string,
    isActive: bool,
    cardBenefits: seq<CardBenefit>)

  datatype UserSpending = UserSpending(
    id: Id,
    userID: Id,
    categoryID: Id,
    amount: real,
    month: int,
    year: int)

  /**
   * The explanation attached to a recommendation, kept as the sequence of
   * template pieces it is printed from (see Scoring.Render for the text).
   */
  datatype ReasonPart =
    | EarnPercent(cashbackRate: real)   // "Earn %.2f%% "
    | EarnPoints(pointsRate: real)      // "Earn %.1fx points "
    | EarnMiles(milesRate: real)        // "Earn %.1fx miles "
    | MonthlyReward(reward: real)       // "on this category. Expected monthly reward: $%.2f"
    | AnnualFee(fee: real)              // ", Annual fee: $%.0f"
    | NetAnnualBenefit(net: real)       // ", Net annual benefit: $%.2f"

  type Reason = seq<ReasonPart>

  /** A persisted recommendation row. */
  datatype Recommendation = Recommendation(
    id: Id,
    userID: Id,
    categoryID: Id,
    cardID: Id,
    score: real,
    estimatedReward: real,
    reason: Reason)

  datatype CreateUserRequest = CreateUserRequest(name: string, email: string)

  datatype SpendingRequest = SpendingRequest(categoryID: Id, amount: real, month: int, year: int)

  datatype RecommendationRequest = RecommendationRequest(userID: Id, categoryID: Id)

  /** What the engine returns to its callers. */
  datatype RecommendationResponse = RecommendationResponse(
    id: Id,
    card: CreditCard,
    category: Category,
    score: real,
    estimatedReward: real,
    reason: Reason)

  // ---------------------------------------------------------------------
  // The min/max/oneof bounds of the `validate` tags. The `required` and
  // `email` rules belong to the validator library and are not modelled.

  const CardTypes: set<string> := {"visa", "mastercard", "amex"}

  predicate LengthWithin(s: string, lo: nat, hi: nat) {
    lo <= |s| <= hi
  }

  predicate ValidUser(u: User): (ok: bool)
    ensures ok <==> 2 <= |u.name| <= 100
  {
    LengthWithin(u.name, 2, 100)
  }

  predicate ValidCreateUserRequest(r: CreateUserRequest): (ok: bool)
    ensures ok <==> 2 <= |r.name| <= 100
  {
    LengthWithin(r.name, 2, 100)
  }

  predicate ValidCategory(c: Category): (ok: bool)
    ensures ok <==> 2 <= |c.name| <= 50
  {
    LengthWithin(c.name, 2, 50)
  }

  predicate ValidCreditCard(c: CreditCard): (ok: bool)
    ensures ok <==>
      && 2 <= |c.name| <= 100 && 2 <= |c.bank| <= 50
      && (c.cardType == "visa" || c.cardType == "mastercard" || c.cardType == "amex")
  {
    && LengthWithin(c.name, 2, 100)
    && LengthWithin(c.bank, 2, 50)
    && c.cardType in CardTypes
  }

  /** The amount, month and year bounds, the same on a stored record and on a request. */
  predicate SpendingBounds(amount: real, month: int, year: int) {
    amount >= 0.0 && 1 <= month <= 12 && year >= 2020
  }

  predicate ValidUserSpending(s: UserSpending): (ok: bool)
    ensures ok <==> s.amount >= 0.0 && 1 <= s.month <= 12 && s.year >= 2020
  {
    SpendingBounds(s.amount, s.month, s.year)
  }

  predicate ValidSpendingRequest(r: SpendingRequest): (ok: bool)
    ensures ok <==> r.amount >= 0.0 && 1 <= r.month <= 12 && r.year >= 2020
  {
    SpendingBounds(r.amount, r.month, r.year)
  }

  /**
   * The invariant the reward lemmas assume of benefit rules: rates, cap and
   * threshold are non-negative (no validate tag enforces it).
   */
  predicate ValidBenefit(b: CardBenefit) {
    b.cashbackRate >= 0.0 && b.pointsRate >= 0.0 && b.milesRate >= 0.0
    && b.cap >= 0.0 && b.minSpend >= 0.0
  }

  /** A benefit row with every column at its database default. */
  function DefaultBenefit(id: Id, cardID: Id, categoryID: Id): (b: CardBenefit)
    ensures ValidBenefit(b)
    ensures b.id == id && b.cardID == cardID && b.categoryID == categoryID
    ensures b.cashbackRate == 0.0 && b.pointsRate == 0.0 && b.milesRate == 0.0
    ensures b.cap == 0.0 && b.minSpend == 0.0
  {
    CardBenefit(id, cardID, categoryID, 0.0, 0.0, 0.0, 0.0, 0.0, "")
  }

  /**
   * The spending row stored for a request (the record the spending service
   * builds from a request); a request passes the tag bounds exactly when
   * the stored row does.
   */
  function SpendingFromRequest(id: Id, userID: Id, req: SpendingRequest): (s: UserSpending)
    ensures s.id == id && s.userID == userID && s.categoryID == req.categoryID
    ensures s.amount == req.amount && s.month == req.month && s.year == req.year
    ensures ValidUserSpending(s) <==> ValidSpendingRequest(req)
  {
    UserSpending(id, userID, req.categoryID, req.amount, req.month, req.year)
  }
}
