/**
 * The pure helpers of the card scraper
 * (backend/internal/service/scraping_service.go): card-network
 * classification, the fee, cashback-rate and income parsers, the bank
 * name guesser and the table of default benefit patterns.
 */
module Scraping {
  import opened Wrappers
  import opened Text
  import Models

  /** A card as read from a comparison site, before it is stored. */
  datatype ScrapedCard = ScrapedCard(
    name: string,
    bank: string,
    annualFee: real,
    cashbackRate: real,
    minIncome: real,
    description: string,
    source: string)

  /** The reward rule the scraper attaches to one category of a new card. */
  datatype BenefitPattern = BenefitPattern(rate: real, points: real, cap: real, minSpend: real)

  predicate ValidPattern(p: BenefitPattern) {
    p.rate >= 0.0 && p.points >= 0.0 && p.cap >= 0.0 && p.minSpend >= 0.0
  }

  // ---------------------------------------------------------------------
  // determineCardType

  /**
   * The card network named in a card's name, tested case-insensitively in
   * the order visa, mastercard, amex; a name naming none is "visa".
   */
  function DetermineCardType(cardName: string): (r: string)
    ensures r in Models.CardTypes
    ensures var l := ToLower(cardName);
      && (r == "mastercard" <==> !Contains(l, "visa") && Contains(l, "mastercard"))
      && (r == "amex" <==>
            && !Contains(l, "visa") && !Contains(l, "mastercard")
            && (Contains(l, "amex") || Contains(l, "american express")))
  {
    var l := ToLower(cardName);
    if Contains(l, "visa") then "visa"
    else if Contains(l, "mastercard") then "mastercard"
    else if Contains(l, "amex") || Contains(l, "american express") then "amex"
    else "visa"
  }

  /** The classification does not depend on the case of the name. */
  lemma DetermineCardTypeIgnoresCase(cardName: string)
    ensures DetermineCardType(ToLower(cardName)) == DetermineCardType(cardName)
  {
    ToLowerIdempotent(cardName);
  }

  // ---------------------------------------------------------------------
  // parseAnnualFee

  /** The text the parsers look at: trimmed, then lower-cased. */
  function Clean(text: string): string {
    ToLower(TrimSpace(text))
  }

  predicate FeeWaived(t: string) {
    Contains(t, "free") || Contains(t, "waived") || Contains(t, "no fee")
  }

  /**
   * The annual fee in a fee text: 0 when the text says the fee is free,
   * waived or absent, otherwise the first number in it, or 0 if it holds
   * no number.
   */
  function ParseAnnualFee(feeText: string): (fee: real)
    ensures fee >= 0.0
    ensures FeeWaived(Clean(feeText)) ==> fee == 0.0
    ensures FirstNumeral(Clean(feeText)).None? ==> fee == 0.0
    ensures !FeeWaived(Clean(feeText)) && FirstNumeral(Clean(feeText)).Some? ==>
      fee == NumeralValue(FirstNumeral(Clean(feeText)).value)
  {
    var t := Clean(feeText);
    if FeeWaived(t) then 0.0
    else
      match FirstNumeral(t)
      case Some(n) => NumeralValue(n)
      case None => 0.0
  }

  // ---------------------------------------------------------------------
  // parseCashbackRate

  /** The largest plain number (without a '%') accepted as a cashback rate. */
  const MaxPlainRate: real := 20.0

  /** The rate assumed when the text gives none. */
  const DefaultCashbackRate: real := 1.0

  /** The cashback text once "up to" and "earn" are removed. */
  function CleanCashbackText(text: string): string {
    TrimSpace(RemoveAll(RemoveAll(Clean(text), "up to"), "earn"))
  }

  /**
   * The cashback rate in a text: the number written before a '%' if there
   * is one; otherwise the first number if it is at most 20; otherwise 1.
   */
  function ParseCashbackRate(cashbackText: string): (rate: real)
    ensures rate >= 0.0
    ensures var t := CleanCashbackText(cashbackText);
      && (PercentNumeral(t).Some? ==> rate == NumeralValue(PercentNumeral(t).value))
      && (PercentNumeral(t).None? ==> rate <= MaxPlainRate)
      && (PercentNumeral(t).None? && FirstNumeral(t).None? ==> rate == DefaultCashbackRate)
      && (PercentNumeral(t).None? && rate != DefaultCashbackRate ==>
            FirstNumeral(t).Some? && rate == NumeralValue(FirstNumeral(t).value))
      && (PercentNumeral(t).None? && FirstNumeral(t).Some? ==>
            var v := NumeralValue(FirstNumeral(t).value);
            rate == if v <= MaxPlainRate then v else DefaultCashbackRate)
  {
    var t := CleanCashbackText(cashbackText);
    match PercentNumeral(t)
    case Some(n) => NumeralValue(n)
    case None =>
      match FirstNumeral(t)
      case Some(n) =>
        var v := NumeralValue(n);
        if v <= MaxPlainRate then v else DefaultCashbackRate
      case None => DefaultCashbackRate
  }

  // ---------------------------------------------------------------------
  // parseIncomeRequirement / parseMinIncome

  /** The smallest figure accepted as an income requirement. */
  const MinPlausibleIncome: real := 1000.0

  /** The income requirement assumed when the text gives no usable figure. */
  const DefaultMinIncome: real := 30000.0

  /**
   * The figure in an income text: the first run of digits and commas with
   * the commas removed; None where that leaves nothing to parse (a run of
   * commas only), as strconv.ParseFloat then fails.
   */
  function IncomeFigure(t: string): (r: Option<nat>)
    ensures r.Some? <==> FirstDigitCommaRun(t).Some? && DropCommas(FirstDigitCommaRun(t).value) != []
    ensures r.Some? ==> r.value == IntValue(DropCommas(FirstDigitCommaRun(t).value))
  {
    match FirstDigitCommaRun(t)
    case None => None
    case Some(run) =>
      var digits := DropCommas(run);
      if digits == [] then None else Some(IntValue(digits))
  }

  /**
   * The minimum income in a text: its first figure when that figure is at
   * least 1000, otherwise 30000.
   */
  function ParseIncomeRequirement(incomeText: string): (income: real)
    ensures income >= MinPlausibleIncome
    ensures var f := IncomeFigure(Clean(incomeText));
      && (f.Some? && f.value as real >= MinPlausibleIncome ==> income == f.value as real)
      && (f.None? || f.value as real < MinPlausibleIncome ==> income == DefaultMinIncome)
  {
    match IncomeFigure(Clean(incomeText))
    case Some(v) => if v as real >= MinPlausibleIncome then v as real else DefaultMinIncome
    case None => DefaultMinIncome
  }

  /** parseMinIncome has the same body as parseIncomeRequirement. */
  function ParseMinIncome(incomeText: string): (income: real)
    ensures income >= MinPlausibleIncome
    ensures income == ParseIncomeRequirement(incomeText)
  {
    ParseIncomeRequirement(incomeText)
  }

  /** A figure made only of commas is not a figure: the default applies. */
  lemma CommaOnlyRunGivesDefault(incomeText: string)
    requires FirstDigitCommaRun(Clean(incomeText)).Some?
    requires forall k :: 0 <= k < |FirstDigitCommaRun(Clean(incomeText)).value| ==>
      FirstDigitCommaRun(Clean(incomeText)).value[k] == ','
    ensures ParseIncomeRequirement(incomeText) == DefaultMinIncome
  {
    DropCommasEmpty(FirstDigitCommaRun(Clean(incomeText)).value);
  }

  // ---------------------------------------------------------------------
  // extractBankName / extractBankFromCardName

  /** The banks the scraper knows, each with the name fragments that identify it. */
  const BankTable: map<string, seq<string>> := map[
    "DBS" := ["dbs", "development bank of singapore"],
    "OCBC" := ["ocbc", "oversea-chinese banking"],
    "UOB" := ["uob", "united overseas bank"],
    "Citibank" := ["citi", "citibank"],
    "HSBC" := ["hsbc", "hongkong and shanghai banking"],
    "Standard Chartered" := ["standard chartered", "stanchart"],
    "Maybank" := ["maybank", "malayan banking"],
    "American Express" := ["amex", "american express"],
    "ANZ" := ["anz", "australia and new zealand"],
    "BOC" := ["boc", "bank of china"]
  ]

  const UnknownBank: string := "Unknown Bank"

  /** One of the bank's fragments occurs in the (lower-cased) name. */
  predicate BankMatches(lowerName: string, bank: string)
    requires bank in BankTable
  {
    exists i :: 0 <= i < |BankTable[bank]| && Contains(lowerName, BankTable[bank][i])
  }

  /**
   * A bank one of whose fragments occurs in the lower-cased card name, or
   * "Unknown Bank" when no fragment occurs. The table is a Go map, visited
   * in no fixed order, so when several banks match any of them may be
   * returned.
   */
  method ExtractBankName(cardName: string) returns (bank: string)
    ensures bank in BankTable || bank == UnknownBank
    ensures bank in BankTable ==> BankMatches(ToLower(cardName), bank)
    ensures bank == UnknownBank <==> forall b :: b in BankTable ==> !BankMatches(ToLower(cardName), b)
  {
    assert UnknownBank !in BankTable;
    var lowerName := ToLower(cardName);
    var remaining := BankTable.Keys;
    while remaining != {}
      invariant remaining <= BankTable.Keys
      invariant forall b :: b in BankTable && b !in remaining ==> !BankMatches(lowerName, b)
      decreases remaining
    {
      var b :| b in remaining;
      var patterns := BankTable[b];
      for i := 0 to |patterns|
        invariant forall j :: 0 <= j < i ==> !Contains(lowerName, patterns[j])
      {
        if Contains(lowerName, patterns[i]) {
          return b;
        }
      }
      remaining := remaining - {b};
    }
    return UnknownBank;
  }

  /** extractBankFromCardName has the same body as extractBankName. */
  method ExtractBankFromCardName(cardName: string) returns (bank: string)
    ensures bank in BankTable || bank == UnknownBank
    ensures bank in BankTable ==> BankMatches(ToLower(cardName), bank)
    ensures bank == UnknownBank <==> forall b :: b in BankTable ==> !BankMatches(ToLower(cardName), b)
  {
    bank := ExtractBankName(cardName);
  }

  // ---------------------------------------------------------------------
  // getBenefitPatterns

  /** Every category the scraper gives a pattern to. */
  const AllCategories: seq<string> := [
    "Dining", "Groceries", "Petrol", "Shopping", "Transport",
    "Travel", "Entertainment", "Healthcare", "Bills", "Online"
  ]

  /** The scraped cashback rate when positive, 1% otherwise. */
  function BaseRate(card: ScrapedCard): (r: real)
    ensures r > 0.0
    ensures card.cashbackRate > 0.0 ==> r == card.cashbackRate
    ensures card.cashbackRate <= 0.0 ==> r == 1.0
  {
    if card.cashbackRate > 0.0 then card.cashbackRate else 1.0
  }

  /** The pattern a category gets when nothing more specific applies. */
  function BasePattern(baseRate: real): BenefitPattern {
    BenefitPattern(baseRate, 0.0, 1000.0, 0.0)
  }

  /**
   * The patterns implied by the card's name: the first of "dining",
   * "travel"/"miles" and "cashback" found in the lower-cased name decides.
   */
  function NamePatterns(name: string, baseRate: real): (m: map<string, BenefitPattern>)
    requires baseRate > 0.0
    ensures forall c :: c in m ==> c in AllCategories && ValidPattern(m[c])
  {
    var l := ToLower(name);
    if Contains(l, "dining") then
      map[
        "Dining" := BenefitPattern(baseRate * 3.0, 0.0, 2000.0, 0.0),
        "Groceries" := BenefitPattern(baseRate * 1.5, 0.0, 1500.0, 0.0)]
    else if Contains(l, "travel") || Contains(l, "miles") then
      map[
        "Travel" := BenefitPattern(0.0, 2.0, 0.0, 0.0),
        "Transport" := BenefitPattern(0.0, 2.0, 1000.0, 0.0),
        "Online" := BenefitPattern(0.0, 2.0, 2000.0, 0.0)]
    else if Contains(l, "cashback") then
      map[
        "Dining" := BenefitPattern(baseRate * 2.0, 0.0, 1500.0, 0.0),
        "Groceries" := BenefitPattern(baseRate * 2.0, 0.0, 1500.0, 0.0),
        "Online" := BenefitPattern(baseRate * 2.0, 0.0, 2000.0, 0.0)]
    else
      map[]
  }

  /** The patterns fixed for four banks, matched on the exact bank name. */
  function BankPatterns(bank: string): (m: map<string, BenefitPattern>)
    ensures forall c :: c in m ==> c in AllCategories && ValidPattern(m[c])
    ensures bank !in {"OCBC", "HSBC", "UOB", "Maybank"} ==> m == map[]
  {
    match bank
    case "OCBC" =>
      map[
        "Dining" := BenefitPattern(6.0, 0.0, 2000.0, 0.0),
        "Groceries" := BenefitPattern(3.0, 0.0, 2000.0, 0.0),
        "Petrol" := BenefitPattern(6.0, 0.0, 1000.0, 0.0)]
    case "HSBC" =>
      map[
        "Online" := BenefitPattern(4.0, 0.0, 2500.0, 0.0),
        "Dining" := BenefitPattern(4.0, 0.0, 2000.0, 0.0),
        "Groceries" := BenefitPattern(4.0, 0.0, 2000.0, 0.0)]
    case "UOB" =>
      map[
        "Online" := BenefitPattern(5.0, 0.0, 2000.0, 500.0),
        "Dining" := BenefitPattern(5.0, 0.0, 2000.0, 500.0)]
    case "Maybank" =>
      map[
        "Dining" := BenefitPattern(5.0, 0.0, 1500.0, 0.0),
        "Groceries" := BenefitPattern(5.0, 0.0, 1500.0, 0.0),
        "Petrol" := BenefitPattern(8.0, 0.0, 1000.0, 0.0)]
    case _ => map[]
  }

  /**
   * The pattern of each of the ten categories: the bank's own pattern if
   * it has one, else the name-based pattern, else the base pattern.
   */
  method GetBenefitPatterns(card: ScrapedCard) returns (patterns: map<string, BenefitPattern>)
    ensures patterns.Keys == set c | c in AllCategories
    ensures forall c :: c in patterns ==> ValidPattern(patterns[c])
    ensures forall c :: c in patterns ==>
      patterns[c] ==
        if c in BankPatterns(card.bank) then BankPatterns(card.bank)[c]
        else if c in NamePatterns(card.name, BaseRate(card)) then NamePatterns(card.name, BaseRate(card))[c]
        else BasePattern(BaseRate(card))
  {
    var baseRate := BaseRate(card);
    var named := NamePatterns(card.name, baseRate);
    var banked := BankPatterns(card.bank);
    // Bank-specific patterns overwrite name-based ones for the same category.
    patterns := named + banked;
    ghost var specific := patterns;
    for i := 0 to |AllCategories|
      invariant forall c :: c in patterns <==> c in specific || c in AllCategories[..i]
      invariant forall c :: c in specific ==> c in patterns && patterns[c] == specific[c]
      invariant forall c :: c in patterns && c !in specific ==> patterns[c] == BasePattern(baseRate)
    {
      assert AllCategories[..i + 1] == AllCategories[..i] + [AllCategories[i]];
      if AllCategories[i] !in patterns {
        patterns := patterns[AllCategories[i] := BasePattern(baseRate)];
      }
    }
    assert AllCategories[..|AllCategories|] == AllCategories;
  }
}
