# GoToCard recommendation engine in Dafny

GoToCard recommends credit cards to a user from the user's recorded
spending. This project models two parts of its Go backend and proves
properties about them.

The first part is the recommendation service
(`backend/internal/service/recommendation_service.go`), in these steps:

1. It sums the user's spending per category.
2. For every category, it builds a candidate from each active card that has
   a benefit rule for that category. Each candidate gets a monthly reward,
   a bounded score and a reason.
3. It sorts all candidates by score.
4. It replaces the user's stored recommendations with the top ten.
5. It returns the top ten.

The reading side, `GetRecommendationsByUser`, is modelled as well.

The second part is the set of pure helpers of the card scraper
(`backend/internal/service/scraping_service.go`):

- the card-network classifier;
- the fee, cashback-rate and income parsers, with their regular expressions
  written as scanners;
- the bank-name guesser;
- the table of default benefit patterns.

The entities of `backend/internal/models/models.go` are datatypes. The
min/max/oneof bounds of their `validate` tags are predicates.

Modules:

- `Wrappers`: Option and Result.
- `Models`: the entities and their validity predicates.
- `Text`: lower-casing, trimming, substring search, `ReplaceAll`, and the
  scanners for `\d+\.?\d*`, `(\d+\.?\d*)\s*%` and `[\d,]+`.
- `Scoring`: `calculateReward`, `calculateScore` and `generateReason`.
- `Ordering`: sorting by a key and concatenating per-key parts. These are
  stated for any element type.
- `Ranking`: spending totals, per-category candidates, the sort and the cut
  to ten.
- `Service`: the recommendation store as a class with its save, generate
  and read operations.
- `Scraping`: the scraper helpers.

Modelling choices:

- Amounts (`float64`) are `real`. `math.Round(x*100)/100` on the clamped,
  non-negative score is `Floor(x*100 + 1/2)/100`.
- Go visits a map in no fixed order, and `sort.Slice` is not stable, so the
  model does not fix these orders either:
  - The category loop and the bank-table loop pick their next key with
    `:|`.
  - The sort is an in-place selection sort whose contract is only
    "non-increasing by score, and a permutation".
- The store is a `RecommendationStore` class. Its `rows` field holds a map
  from user to that user's rows in insertion order, and `nextID` holds the
  identifier the next insert gets. Which store call fails is an input (a
  `FaultPlan`). The loads that `GenerateRecommendations` performs are passed
  in as their results.
- The reason string is kept as a list of template pieces (`ReasonPart`).
  `Scoring.Render` turns them into text through a number formatter that is
  a parameter and stands for `fmt`'s `%.Nf`.

Behaviours of the code worth noting:

- A category whose records sum to 0 still gets candidates. The code filters
  on nothing but the presence of a key in the totals map.
- A save is not atomic. When an insert fails, the old rows are already
  deleted and the rows inserted before the failure stay
  (`Service.FailedInsertKeepsEarlierRows`).
- Spend beyond a cap earns what the cap earns only when `minSpend <= cap`.
  The cap is applied after the minimum-spend test
  (`Scoring.CapBelowMinSpendBreaksFlatness`).
- The reason names the unit with the reverse priority of the reward: miles
  over points over cashback. A rule with both cashback and miles rates pays
  cashback but says "miles" (`Scoring.ReasonNamesOtherUnitThanReward`).
- Which candidates make the top ten depends on how ties fall. The scores at
  each position do not (`Service.ReturnedScoresIndependentOfOrder`).

## Model

| member | source | states |
|---|---|---|
| `Models.DefaultBenefit` | backend/internal/models/models.go:51-55 | a rule for the given card and category with every rate, the cap and the minimum spend at their default 0; such a rule is valid |
| `Models.ValidUser` | backend/internal/models/models.go:11 | a user passes the name tag exactly when the name has 2 to 100 characters |
| `Models.ValidCreateUserRequest` | backend/internal/models/models.go:102 | a create-user request passes exactly when the name has 2 to 100 characters |
| `Models.ValidCategory` | backend/internal/models/models.go:19 | a category passes exactly when the name has 2 to 50 characters |
| `Models.ValidCreditCard` | backend/internal/models/models.go:29-31 | a card passes exactly when the name has 2 to 100 characters, the bank 2 to 50, and the card type is visa, mastercard or amex |
| `Models.ValidUserSpending` | backend/internal/models/models.go:70-72 | a spending record passes exactly when amount ≥ 0, month is 1 to 12 and year ≥ 2020 |
| `Models.ValidSpendingRequest` | backend/internal/models/models.go:108-110 | a spending request passes under the same bounds as the record |
| `Models.SpendingFromRequest` | backend/internal/models/models.go:106-111 | the stored spending row keeps the user, the category, the amount, the month and the year of the request, and satisfies the amount ≥ 0, month 1..12, year ≥ 2020 bounds exactly when the request does |
| `Text.TrimSpace` | backend/internal/service/scraping_service.go:510 | the result is a slice of the input with only white space outside it, and it neither starts nor ends with white space |
| `Text.RemoveAll` | backend/internal/service/scraping_service.go:536-537 | removing a pattern never lengthens the text |
| `Text.RemoveAllWithoutOccurrence` | backend/internal/service/scraping_service.go:536-537 | a text without the pattern comes back unchanged |
| `Text.RemoveAllShortens` | backend/internal/service/scraping_service.go:536-537 | a text with the pattern loses at least the pattern's length |
| `Text.RemoveAllFirstOccurrence` | backend/internal/service/scraping_service.go:536-537 | when no occurrence starts before `p` in `pre + p + post`, the result is `pre` followed by the removal applied to `post` |
| `Text.RemoveAllAtFirst` | backend/internal/service/scraping_service.go:536-537 | when the pattern first occurs at i, the text before i is kept, that occurrence is dropped, and removal goes on after it |
| `Text.ToLowerIdempotent` | backend/internal/service/scraping_service.go:497 | lower-casing twice is lower-casing once |
| `Text.ToLower` | backend/internal/service/scraping_service.go:497 | same length; each ASCII capital becomes its small letter and every other character is kept |
| `Text.Contains` | backend/internal/service/scraping_service.go:498-502 | a pattern is found only in a text at least as long, and always when it is a prefix |
| `Text.NumeralValue` | backend/internal/service/scraping_service.go:522 | a matched numeral parses to a non-negative value between its integer part and the integer part plus one |
| `Text.FirstNumeral` | backend/internal/service/scraping_service.go:518-519 | none exactly when the text has no digit; otherwise the greedy match starting at the first digit |
| `Text.PercentNumeral` | backend/internal/service/scraping_service.go:541-542 | none exactly when `\d+\.?\d*\s*%` matches nowhere; otherwise the numeral at the leftmost position where it matches |
| `Text.FirstDigitCommaRun` | backend/internal/service/scraping_service.go:570-571 | none exactly when the text has no digit or comma; otherwise the maximal run of digits and commas that starts at the first digit or comma |
| `Text.DropCommas` | backend/internal/service/scraping_service.go:575 | the result is all digits and no longer than the run |
| `Text.DropCommasEmpty` | backend/internal/service/scraping_service.go:575-577 | nothing is left exactly when the run held only commas |
| `Text.DropCommasNoComma` | backend/internal/service/scraping_service.go:575 | a run of digits only is kept as it is |
| `Text.DropCommasAppend` | backend/internal/service/scraping_service.go:575 | dropping commas distributes over concatenation |
| `Text.DropCommasComma` | backend/internal/service/scraping_service.go:575 | a comma alone drops to nothing |
| `Scoring.CreditedUnit` | backend/internal/service/recommendation_service.go:120-135 | cashback when its rate is positive, else points when positive, else miles when positive, else nothing |
| `Scoring.RewardPerDollar` | backend/internal/service/recommendation_service.go:120-133 | a valid rule earns a non-negative amount per dollar |
| `Scoring.EligibleSpend` | backend/internal/service/recommendation_service.go:115-118 | the spend cut down to a positive cap; the whole spend when the cap is 0 |
| `Scoring.CalculateReward` | backend/internal/service/recommendation_service.go:110-136 | 0 below the minimum spend; 0 when no rate is positive; non-negative for a valid rule |
| `Scoring.RewardByUnit` | backend/internal/service/recommendation_service.go:120-133 | at or above the minimum spend: eligible·cashback/100, else eligible·points/100·0.01, else eligible·miles/100·0.015 |
| `Scoring.RewardFlatBeyondCap` | backend/internal/service/recommendation_service.go:111-118 | beyond a positive cap the reward equals the reward at the cap, given minSpend ≤ cap |
| `Scoring.CapBelowMinSpendBreaksFlatness` | backend/internal/service/recommendation_service.go:111-118 | with cap 100 below minSpend 200, a spend of 300 earns 5 while a spend equal to the cap earns 0 |
| `Scoring.ZeroCapIsUncapped` | backend/internal/service/recommendation_service.go:116-118 | with cap 0 the whole spend earns |
| `Scoring.DefaultBenefitEarnsNothing` | backend/internal/service/recommendation_service.go:120-135 | a rule with default columns earns 0 for any spend |
| `Scoring.OnlyCreditedUnitCounts` | backend/internal/service/recommendation_service.go:120-133 | the lower-priority rates do not change the reward |
| `Scoring.RewardMonotone` | backend/internal/service/recommendation_service.go:110-136 | with a valid rule, spending more never earns less |
| `Scoring.RewardBoundedByCap` | backend/internal/service/recommendation_service.go:116-118 | a positive cap bounds the reward by cap × rate per dollar |
| `Scoring.RawScore` | backend/internal/service/recommendation_service.go:139-154 | with non-negative rates the bonuses only add: the raw score is at least net benefit − fee/2 |
| `Scoring.Clamp` | backend/internal/service/recommendation_service.go:157 | the result is in [0, 100]; values inside are unchanged, and values outside go to the nearer end |
| `Scoring.Round2` | backend/internal/service/recommendation_service.go:159 | the result is within half a cent of the input and is a whole number of hundredths |
| `Scoring.Round2Monotone` | backend/internal/service/recommendation_service.go:159 | rounding keeps order |
| `Scoring.Round2Ends` | backend/internal/service/recommendation_service.go:157-159 | 0 and 100 round to themselves |
| `Scoring.CalculateScore` | backend/internal/service/recommendation_service.go:138-160 | the score is in [0, 100], a whole number of hundredths, and within half a cent of the clamped raw score; it is 100 when the raw score reaches 100 and 0 when the raw score is at most 0 |
| `Scoring.ScoreMonotoneInNetBenefit` | backend/internal/service/recommendation_service.go:138-160 | a larger net benefit never lowers the score |
| `Scoring.CardScore` | backend/internal/service/recommendation_service.go:91-93 | the score of a card from its monthly reward and fee is in [0, 100] |
| `Scoring.ScoreAntitoneInFee` | backend/internal/service/recommendation_service.go:91-93 | with the same reward and rule, a higher fee never scores higher |
| `Scoring.ScoreMonotoneInSpend` | backend/internal/service/recommendation_service.go:88-93 | for a valid rule, a larger category total never scores lower |
| `Scoring.DiningScenario` | backend/internal/service/recommendation_service.go:88-93 | 6% capped at 500 on a 600 spend earns 30, and the score saturates at 100 with or without a 120 fee |
| `Scoring.ReasonLead` | backend/internal/service/recommendation_service.go:166-172 | the opening names miles when that rate is positive, else points when positive, else the cashback rate |
| `Scoring.GenerateReason` | backend/internal/service/recommendation_service.go:162-183 | the opening, then the monthly reward, then the fee exactly when the fee is positive, and last the net annual benefit reward·12 − fee |
| `Scoring.ReasonNamesOtherUnitThanReward` | backend/internal/service/recommendation_service.go:121-123 | with both cashback and miles rates, the reward is credited in cashback but the reason opens with miles |
| `Scoring.RenderPart` | backend/internal/service/recommendation_service.go:166-182 | each piece opens with its template's fixed words: "Earn ", "on this category. Expected monthly reward: $", ", Annual fee: $" or ", Net annual benefit: $" |
| `Scoring.Render` | backend/internal/service/recommendation_service.go:162-183 | the text of an empty reason is empty; otherwise it starts with its first piece's text |
| `Scoring.RenderOpensWithEarn` | backend/internal/service/recommendation_service.go:166-172 | a reason that starts with an opening piece renders to text that starts with "Earn " |
| `Scoring.RenderHasFeeClause` | backend/internal/service/recommendation_service.go:176-178 | a fee piece puts ", Annual fee: $" into the text |
| `Scoring.ReasonText` | backend/internal/service/recommendation_service.go:162-183 | the reason text starts with "Earn " and contains the fee clause whenever the fee is positive |
| `Ordering.SortDescending` | backend/internal/service/recommendation_service.go:47-49 | in place: the array ends non-increasing by key and is a permutation of what it held |
| `Ordering.SortedKeysDetermined` | backend/internal/service/recommendation_service.go:47-49 | two non-increasing orderings of the same elements have the same key at every position |
| `Ordering.FlatMapPermutation` | backend/internal/service/recommendation_service.go:41-44 | visiting the same distinct keys in another order gives the same multiset of parts |
| `Ranking.Totals` | backend/internal/service/recommendation_service.go:34-37 | one total per category that occurs in the records |
| `Ranking.SpentInAbsent` | backend/internal/service/recommendation_service.go:35-37 | a category with no records totals 0 |
| `Ranking.SpentIn` | backend/internal/service/recommendation_service.go:35-37 | valid records (amount ≥ 0) give a non-negative total |
| `Ranking.SpentInAppend` | backend/internal/service/recommendation_service.go:35-37 | the total over two lists of records is the sum of their totals |
| `Ranking.AggregateSpending` | backend/internal/service/recommendation_service.go:34-37 | the loop yields exactly the categories that occur, each with the sum of its amounts over all months and years |
| `Ranking.FirstBenefit` | backend/internal/service/recommendation_service.go:75-81 | none exactly when no rule is for the category; otherwise the first rule for it |
| `Ranking.FindBenefit` | backend/internal/service/recommendation_service.go:75-81 | the search loop with break returns the first rule for the category |
| `Ranking.Candidate` | backend/internal/service/recommendation_service.go:87-104 | the candidate has identifier 0 and carries the card, the category and the monthly reward for the total; its score is the card score of that reward and the fee, in [0, 100], and its reason is the reason generated from the rule, the reward and the fee |
| `Ranking.CardCandidatesStep` | backend/internal/service/recommendation_service.go:73-105 | one more card adds its candidate exactly when it has a rule for the category |
| `Ranking.CardCandidatesSound` | backend/internal/service/recommendation_service.go:73-105 | every candidate comes from a listed card that has a rule for the category, built from that card's first such rule |
| `Ranking.CardCandidatesComplete` | backend/internal/service/recommendation_service.go:73-105 | every listed card with a rule for the category has its candidate |
| `Ranking.CategoryCandidatesKeyed` | backend/internal/service/recommendation_service.go:65-71 | when the catalogue files each category under its own identifier, every candidate for category c carries that category |
| `Ranking.CardCandidates` | backend/internal/service/recommendation_service.go:73-105 | there are no more candidates than cards |
| `Ranking.CalculateBestCardsForCategory` | backend/internal/service/recommendation_service.go:65-108 | the card loop yields the per-card candidates in card order, and nothing when the category lookup fails |
| `Ranking.CollectCandidates` | backend/internal/service/recommendation_service.go:39-44 | every category is visited once, and the result is the concatenation of the per-category candidates in that order |
| `Ranking.CandidatesIndependentOfOrder` | backend/internal/service/recommendation_service.go:41-44 | the order the categories are visited in changes only the order of the candidates |
| `Ranking.SortByScore` | backend/internal/service/recommendation_service.go:46-49 | in place: non-increasing by score, and a permutation |
| `Ranking.Top` | backend/internal/service/recommendation_service.go:57-60 | a prefix of length min(10, n) |
| `Ranking.RankingScoresDetermined` | backend/internal/service/recommendation_service.go:46-49 | two rankings of the same candidates carry the same score at every position |
| `Service.RecommendationStore.constructor` | backend/internal/service/recommendation_service.go:185-215 | an empty table, well filed, whose identifiers start at 1 |
| `Service.RecommendationStore.DeleteByUserID` | backend/internal/service/recommendation_service.go:187-190 | it removes every row of the user and nothing else, or fails and changes nothing; a well-filed store stays well filed |
| `Service.RecommendationStore.Create` | backend/internal/service/recommendation_service.go:208-211 | it appends the row under the next identifier to its user's rows, or fails and changes nothing; a well-filed store stays well filed |
| `Service.RecommendationStore.GetByUserID` | backend/internal/service/recommendation_service.go:218-221 | the user's rows in insertion order, or the read error |
| `Service.ToRow` | backend/internal/service/recommendation_service.go:199-206 | the row keeps the user, the category and card identifiers, the score, the reward and the reason, under the identifier given |
| `Service.StoredRows` | backend/internal/service/recommendation_service.go:198-206 | one row per saved recommendation |
| `Service.SavedCount` | backend/internal/service/recommendation_service.go:193-196 | min(n, 10) |
| `Service.InsertedCount` | backend/internal/service/recommendation_service.go:198-212 | fewer than all inserts succeed exactly when one of them fails |
| `Service.SaveOutcome` | backend/internal/service/recommendation_service.go:185-215 | no error exactly when the delete succeeds and none of the first min(n, 10) inserts fails |
| `Service.AfterSave` | backend/internal/service/recommendation_service.go:185-215 | a failed delete leaves the store as it was; no other user's rows change; otherwise the user has at most ten rows and the next identifier has advanced by their number |
| `Service.SaveRecommendations` | backend/internal/service/recommendation_service.go:185-215 | the delete then the counted inserts: the new store is the old one with the user's rows replaced by the rows inserted before the first failure; a failed delete changes nothing |
| `Service.SaveReplacesUserRows` | backend/internal/service/recommendation_service.go:185-215 | a save without failures leaves exactly the top ten, at most ten rows, under the user |
| `Service.SaveLeavesOtherUsers` | backend/internal/service/recommendation_service.go:187-212 | whatever fails, no other user's rows change |
| `Service.FailedInsertKeepsEarlierRows` | backend/internal/service/recommendation_service.go:208-211 | when insert j fails, the error is returned and the j rows inserted before it stay (no rollback) |
| `Service.FailedDeleteChangesNothing` | backend/internal/service/recommendation_service.go:187-190 | a failed delete returns the error and leaves the store as it was |
| `Service.SavePreservesWellFiled` | backend/internal/service/recommendation_service.go:185-215 | every row stays filed under its own user with an identifier already handed out |
| `Service.GenerateRecommendations` | backend/internal/service/recommendation_service.go:20-63 | a load failure returns its wrapped error before the store is touched; otherwise every category is visited once, the ranking is non-increasing and a permutation of all candidates, the store is saved, and the result is the save's wrapped error or the top ten |
| `Service.ReturnedScoresIndependentOfOrder` | backend/internal/service/recommendation_service.go:41-60 | two runs on the same inputs return the same scores at every position, whatever the map and tie orders |
| `Service.Responses` | backend/internal/service/recommendation_service.go:223-233 | one response per row |
| `Service.PreloadedCard` | backend/internal/service/recommendation_service.go:226 | the catalogue's card without its benefits, or a zero, inactive card when the identifier is unknown |
| `Service.FromRow` | backend/internal/service/recommendation_service.go:225-232 | the response keeps the row's identifier, score, reward and reason, with the catalogue's category and the benefit-less catalogue card for the row's identifiers |
| `Service.GetRecommendationsByUser` | backend/internal/service/recommendation_service.go:217-236 | the read error, or one response per stored row of the user, in row order |
| `Service.Reloaded` | backend/internal/service/recommendation_service.go:223-233 | one read-back response per saved recommendation |
| `Service.StoredRowsReadBack` | backend/internal/service/recommendation_service.go:199-232 | saving then reading back keeps every field except the identifier the store assigns and the card's benefits, which the read does not load |
| `Service.GeneratedThenRead` | backend/internal/service/recommendation_service.go:52-62 | after a save without failures, reading back gives the returned top ten, renumbered from the store's next identifier |
| `Scraping.DetermineCardType` | backend/internal/service/scraping_service.go:496-506 | always visa, mastercard or amex; mastercard exactly when the lower-cased name has "mastercard" and not "visa"; amex exactly when it has "amex" or "american express" and neither of the others |
| `Scraping.DetermineCardTypeIgnoresCase` | backend/internal/service/scraping_service.go:497 | the classification ignores the case of the name |
| `Scraping.ParseAnnualFee` | backend/internal/service/scraping_service.go:508-529 | never negative; 0 when the text says free, waived or no fee, or holds no number; otherwise the value of the first number |
| `Scraping.ParseCashbackRate` | backend/internal/service/scraping_service.go:531-563 | never negative; the number before the first '%' when there is one; otherwise the first number when that is at most 20, else 1 (also when there is no number) |
| `Scraping.IncomeFigure` | backend/internal/service/scraping_service.go:570-576 | a figure exactly when the first digit/comma run holds a digit, and then the integer its digits spell with the commas dropped |
| `Scraping.ParseIncomeRequirement` | backend/internal/service/scraping_service.go:678-696 | always at least 1000: the figure of the first digit/comma run when it is at least 1000, else 30000 (also when there is no figure) |
| `Scraping.ParseMinIncome` | backend/internal/service/scraping_service.go:565-583 | always at least 1000, and equal to parseIncomeRequirement on every text |
| `Scraping.CommaOnlyRunGivesDefault` | backend/internal/service/scraping_service.go:575-582 | a first run of commas only fails to parse, so the default 30000 applies |
| `Scraping.ExtractBankName` | backend/internal/service/scraping_service.go:651-676 | a known bank one of whose fragments occurs in the lower-cased name, or "Unknown Bank" exactly when no fragment of any bank occurs |
| `Scraping.ExtractBankFromCardName` | backend/internal/service/scraping_service.go:585-610 | meets the same contract as extractBankName: a known bank with a fragment in the lower-cased name, or "Unknown Bank" exactly when there is none |
| `Scraping.BaseRate` | backend/internal/service/scraping_service.go:428-431 | positive; the scraped cashback rate when that is positive, otherwise 1.0 |
| `Scraping.NamePatterns` | backend/internal/service/scraping_service.go:434-446 | only the ten known categories, with valid patterns |
| `Scraping.BankPatterns` | backend/internal/service/scraping_service.go:449-465 | only the ten known categories, with valid patterns; none for banks other than OCBC, HSBC, UOB and Maybank |
| `Scraping.GetBenefitPatterns` | backend/internal/service/scraping_service.go:424-476 | exactly the ten categories, each with a valid pattern: the bank's when it has one, else the name-based one, else rate baseRate, cap 1000, min spend 0 |

## Left out

- Persistence: the GORM repositories are a class holding a map from user to
  rows. A soft delete is modelled as removal, since no read sees
  soft-deleted rows. The loads of spending and active cards are inputs.
  The per-category lookup and the read-side preload of card and category
  are maps. The repository code is not part of this model.
- The preloaded card of a read has no benefits. The code preloads `Card`
  but not `Card.CardBenefits`, and `Service.PreloadedCard` models this. A
  row whose card or category is missing reads back with a zero card or
  category.
- Floating point: amounts are exact reals. IEEE rounding, overflow in
  `strconv.ParseFloat` and `math.Round` on negative values are not
  modelled. The score is clamped to be non-negative before it is rounded.
- `fmt.Sprintf` number formatting: the digits of `%.2f`, `%.1f` and `%.0f`
  are left to a formatter that is a parameter of `Scoring.Render`.
- Lower-casing covers ASCII letters only. Go's full Unicode case mapping is
  not modelled.
- The `required` and `email` validators come from a validator library that
  is not part of this model. Only the min/max/oneof bounds are predicates.
- `GetRecommendationsByCategory` and `RefreshRecommendations` are not part
  of this model. The first is the same mapping as `GetRecommendationsByUser`
  over a narrower read, and the second only calls `GenerateRecommendations`.
- The scraping pipeline (HTTP, HTML callbacks, `processAndSaveCard`,
  `addRealisticCardBenefits`) is I/O and is not modelled. Only its pure
  helpers are.
- A nil slice and an empty slice are both the empty sequence.
- Service.GenerateRecommendations: does not fix the order of equal scores
  or of categories, because Go's map order and `sort.Slice` leave both
  unspecified. Under ties, which candidates make the top ten is therefore
  not determined; their scores are.
- Scraping.ExtractBankName: when several banks match, it does not say which
  one is returned, because the Go map is visited in no fixed order.
- Service.RecommendationStore.GetByUserID: returns rows in insertion order,
  where the database gives no order without an ORDER BY.
- Concurrency: two simultaneous saves for one user are not modelled.
