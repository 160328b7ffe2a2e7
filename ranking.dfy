/**
 * The computing half of GenerateRecommendations
 * (backend/internal/service/recommendation_service.go:20-108): the
 * per-category spending totals, the candidates of each category, and the
 * ranking by score.
 */
module Ranking {
  import opened Wrappers
  import opened Models
  import Scoring
  import Ordering

  // ---------------------------------------------------------------------
  // Spending per category

  /** The categories that occur in a user's spending records. */
  function CategoriesOf(spendings: seq<UserSpending>): set<Id> {
    set i | 0 <= i < |spendings| :: spendings[i].categoryID
  }

  /** The sum of the amounts of the records in category `c`, over all months and years. */
  function SpentIn(spendings: seq<UserSpending>, c: Id): (total: real)
    ensures (forall i :: 0 <= i < |spendings| ==> ValidUserSpending(spendings[i])) ==> total >= 0.0
  {
    if spendings == [] then 0.0
    else
      var last := spendings[|spendings| - 1];
      SpentIn(spendings[..|spendings| - 1], c) + (if last.categoryID == c then last.amount else 0.0)
  }

  /** The totals the aggregation loop produces, as a map. */
  function Totals(spendings: seq<UserSpending>): (totals: map<Id, real>)
    ensures totals.Keys == CategoriesOf(spendings)
  {
    map c | c in CategoriesOf(spendings) :: SpentIn(spendings, c)
  }

  /** Records outside the category add nothing to its total. */
  lemma {:induction false} SpentInAbsent(spendings: seq<UserSpending>, c: Id)
    requires c !in CategoriesOf(spendings)
    ensures SpentIn(spendings, c) == 0.0
  {
    if spendings != [] {
      var init := spendings[..|spendings| - 1];
      assert CategoriesOf(init) <= CategoriesOf(spendings) by {
        forall x | x in CategoriesOf(init) ensures x in CategoriesOf(spendings) {
          var i :| 0 <= i < |init| && init[i].categoryID == x;
          assert spendings[i].categoryID == x;
        }
      }
      assert spendings[|spendings| - 1].categoryID in CategoriesOf(spendings);
      SpentInAbsent(init, c);
    }
  }

  /** The total of a concatenation is the sum of the totals. */
  lemma {:induction false} SpentInAppend(a: seq<UserSpending>, b: seq<UserSpending>, c: Id)
    ensures SpentIn(a + b, c) == SpentIn(a, c) + SpentIn(b, c)
  {
    if b == [] {
      assert a + b == a;
    } else {
      assert (a + b)[..|a + b| - 1] == a + b[..|b| - 1];
      SpentInAppend(a, b[..|b| - 1], c);
    }
  }

  /**
   * categorySpending[spending.CategoryID] += spending.Amount over all the
   * records: one total per category that occurs, the sum of its amounts.
   */
  /** One more record adds its category to the categories seen. */
  lemma CategoriesOfStep(spendings: seq<UserSpending>, i: nat)
    requires i < |spendings|
    ensures CategoriesOf(spendings[..i + 1]) == CategoriesOf(spendings[..i]) + {spendings[i].categoryID}
  {
    forall x | x in CategoriesOf(spendings[..i + 1])
      ensures x in CategoriesOf(spendings[..i]) + {spendings[i].categoryID}
    {
      var k :| 0 <= k < i + 1 && spendings[..i + 1][k].categoryID == x;
      if k < i { assert spendings[..i][k].categoryID == x; }
    }
    forall x | x in CategoriesOf(spendings[..i])
      ensures x in CategoriesOf(spendings[..i + 1])
    {
      var k :| 0 <= k < i && spendings[..i][k].categoryID == x;
      assert spendings[..i + 1][k].categoryID == x;
    }
    assert spendings[..i + 1][i] == spendings[i];
  }

  method AggregateSpending(spendings: seq<UserSpending>) returns (totals: map<Id, real>)
    ensures totals.Keys == CategoriesOf(spendings)
    ensures forall c :: c in totals ==> totals[c] == SpentIn(spendings, c)
    ensures totals == Totals(spendings)
  {
    totals := map[];
    for i := 0 to |spendings|
      invariant totals.Keys == CategoriesOf(spendings[..i])
      invariant forall c :: c in totals ==> totals[c] == SpentIn(spendings[..i], c)
    {
      var s := spendings[i];
      assert spendings[..i + 1][..i] == spendings[..i];
      CategoriesOfStep(spendings, i);
      if s.categoryID !in totals {
        SpentInAbsent(spendings[..i], s.categoryID);
      }
      var previous := if s.categoryID in totals then totals[s.categoryID] else 0.0;
      totals := totals[s.categoryID := previous + s.amount];
    }
    assert spendings[..|spendings|] == spendings;
  }

  // ---------------------------------------------------------------------
  // The benefit a card offers for a category

  /** The first of a card's benefits that belongs to category `c`. */
  function FirstBenefit(benefits: seq<CardBenefit>, c: Id): (r: Option<CardBenefit>)
    ensures r.None? <==> forall i :: 0 <= i < |benefits| ==> benefits[i].categoryID != c
    ensures r.Some? ==> exists i ::
      && 0 <= i < |benefits| && benefits[i] == r.value && r.value.categoryID == c
      && forall j :: 0 <= j < i ==> benefits[j].categoryID != c
  {
    if benefits == [] then None
    else if benefits[0].categoryID == c then
      assert benefits[0].categoryID == c;
      Some(benefits[0])
    else
      var r := FirstBenefit(benefits[1..], c);
      assert forall i :: 1 <= i < |benefits| ==> benefits[i] == benefits[1..][i - 1];
      r
  }

  /** The search loop over card.CardBenefits that stops at the first match. */
  method FindBenefit(benefits: seq<CardBenefit>, c: Id) returns (found: Option<CardBenefit>)
    ensures found == FirstBenefit(benefits, c)
  {
    for i := 0 to |benefits|
      invariant forall j :: 0 <= j < i ==> benefits[j].categoryID != c
    {
      if benefits[i].categoryID == c {
        found := Some(benefits[i]);
        ghost var r := FirstBenefit(benefits, c);
        assert r.Some?;
        ghost var k :| 0 <= k < |benefits| && benefits[k] == r.value && r.value.categoryID == c
          && forall j :: 0 <= j < k ==> benefits[j].categoryID != c;
        assert k == i;
        return;
      }
    }
    found := None;
  }

  // ---------------------------------------------------------------------
  // Candidates of one category

  /** The recommendation a card gets for a category through benefit `b`. */
  function Candidate(card: CreditCard, category: Category, monthlySpent: real, b: CardBenefit): (r: RecommendationResponse)
    ensures r.id == 0 && r.card == card && r.category == category
    ensures r.estimatedReward == Scoring.CalculateReward(monthlySpent, b)
    ensures r.score == Scoring.CardScore(r.estimatedReward, card.annualFee, b)
    ensures 0.0 <= r.score <= Scoring.MaxScore
    ensures r.reason == Scoring.GenerateReason(b, r.estimatedReward, card.annualFee)
  {
    var reward := Scoring.CalculateReward(monthlySpent, b);
    var score := Scoring.CardScore(reward, card.annualFee, b);
    RecommendationResponse(0, card, category, score, reward, Scoring.GenerateReason(b, reward, card.annualFee))
  }

  predicate HasBenefitFor(card: CreditCard, c: Id) {
    FirstBenefit(card.cardBenefits, c).Some?
  }

  /** One candidate per card that has a benefit for the category, in card order. */
  function CardCandidates(cards: seq<CreditCard>, category: Category, c: Id, monthlySpent: real): (r: seq<RecommendationResponse>)
    ensures |r| <= |cards|
  {
    if cards == [] then []
    else
      var card := cards[|cards| - 1];
      var rest := CardCandidates(cards[..|cards| - 1], category, c, monthlySpent);
      match FirstBenefit(card.cardBenefits, c)
      case None => rest
      case Some(b) => rest + [Candidate(card, category, monthlySpent, b)]
  }

  /** The candidates of a category: none when its lookup fails. */
  function CategoryCandidates(c: Id, monthlySpent: real, cards: seq<CreditCard>, categories: map<Id, Category>): seq<RecommendationResponse> {
    if c in categories then CardCandidates(cards, categories[c], c, monthlySpent) else []
  }

  /**
   * Every candidate comes from one of the cards, through that card's first
   * benefit for the category.
   */
  lemma {:induction false} CardCandidatesSound(cards: seq<CreditCard>, category: Category, c: Id, monthlySpent: real)
    ensures forall x :: x in CardCandidates(cards, category, c, monthlySpent) ==>
      && x.card in cards && HasBenefitFor(x.card, c)
      && x == Candidate(x.card, category, monthlySpent, FirstBenefit(x.card.cardBenefits, c).value)
  {
    if cards != [] {
      var init := cards[..|cards| - 1];
      CardCandidatesSound(init, category, c, monthlySpent);
      assert forall x :: x in init ==> x in cards;
    }
  }

  /** Every card with a benefit for the category has its candidate. */
  lemma {:induction false} CardCandidatesComplete(cards: seq<CreditCard>, category: Category, c: Id, monthlySpent: real)
    ensures forall card :: card in cards && HasBenefitFor(card, c) ==>
      Candidate(card, category, monthlySpent, FirstBenefit(card.cardBenefits, c).value)
        in CardCandidates(cards, category, c, monthlySpent)
  {
    if cards != [] {
      var init := cards[..|cards| - 1];
      CardCandidatesComplete(init, category, c, monthlySpent);
      assert forall x :: x in cards ==> x in init || x == cards[|cards| - 1];
    }
  }

  /** The catalogue files every category under its own identifier. */
  predicate CategoriesKeyed(categories: map<Id, Category>) {
    forall c :: c in categories ==> categories[c].id == c
  }

  /** In a keyed catalogue, the candidates of category `c` all carry the category `c`. */
  lemma CategoryCandidatesKeyed(c: Id, monthlySpent: real, cards: seq<CreditCard>, categories: map<Id, Category>)
    requires CategoriesKeyed(categories)
    ensures forall x :: x in CategoryCandidates(c, monthlySpent, cards, categories) ==>
      x.category.id == c && x.category == categories[c]
  {
    if c in categories {
      CardCandidatesSound(cards, categories[c], c, monthlySpent);
    }
  }

  /** Taking one more card adds its candidate, if it has one. */
  lemma CardCandidatesStep(cards: seq<CreditCard>, i: nat, category: Category, c: Id, monthlySpent: real)
    requires i < |cards|
    ensures var b := FirstBenefit(cards[i].cardBenefits, c);
      CardCandidates(cards[..i + 1], category, c, monthlySpent)
        == CardCandidates(cards[..i], category, c, monthlySpent)
          + (if b.Some? then [Candidate(cards[i], category, monthlySpent, b.value)] else [])
  {
    assert cards[..i + 1][..i] == cards[..i];
  }

  /** The loop over the cards of calculateBestCardsForCategory. */
  method CalculateBestCardsForCategory(c: Id, monthlySpent: real, cards: seq<CreditCard>, categories: map<Id, Category>)
    returns (recs: seq<RecommendationResponse>)
    ensures recs == CategoryCandidates(c, monthlySpent, cards, categories)
  {
    recs := [];
    if c !in categories {
      return;
    }
    var category := categories[c];
    for i := 0 to |cards|
      invariant recs == CardCandidates(cards[..i], category, c, monthlySpent)
    {
      var card := cards[i];
      CardCandidatesStep(cards, i, category, c, monthlySpent);
      var best := FindBenefit(card.cardBenefits, c);
      if best.None? {
        continue;
      }
      recs := recs + [Candidate(card, category, monthlySpent, best.value)];
    }
    assert cards[..|cards|] == cards;
  }

  // ---------------------------------------------------------------------
  // All candidates, category by category

  /** The candidates of one category, given the totals. */
  function CategoryPart(totals: map<Id, real>, cards: seq<CreditCard>, categories: map<Id, Category>): Id -> seq<RecommendationResponse> {
    c => if c in totals then CategoryCandidates(c, totals[c], cards, categories) else []
  }

  /** The candidates of the categories in the order they were visited. */
  function CandidatesInOrder(order: seq<Id>, totals: map<Id, real>, cards: seq<CreditCard>, categories: map<Id, Category>): seq<RecommendationResponse> {
    Ordering.FlatMap(order, CategoryPart(totals, cards, categories))
  }

  /**
   * The loop over the category totals. Go visits a map in no fixed order,
   * so the order is chosen here too; `order` records the one taken, and it
   * visits every category once.
   */
  method CollectCandidates(totals: map<Id, real>, cards: seq<CreditCard>, categories: map<Id, Category>)
    returns (candidates: seq<RecommendationResponse>, ghost order: seq<Id>)
    ensures Ordering.Distinct(order) && Ordering.Elements(order) == totals.Keys
    ensures candidates == CandidatesInOrder(order, totals, cards, categories)
  {
    candidates, order := [], [];
    var remaining := totals.Keys;
    while remaining != {}
      invariant remaining <= totals.Keys
      invariant Ordering.Elements(order) == totals.Keys - remaining
      invariant Ordering.Distinct(order)
      invariant candidates == CandidatesInOrder(order, totals, cards, categories)
      decreases remaining
    {
      var c :| c in remaining;
      var recs := CalculateBestCardsForCategory(c, totals[c], cards, categories);
      var next := order + [c];
      Ordering.FlatMapSnoc(order, c, CategoryPart(totals, cards, categories));
      assert Ordering.Elements(next) == Ordering.Elements(order) + {c} by {
        assert forall i :: 0 <= i < |order| ==> next[i] == order[i];
        assert next[|order|] == c;
      }
      candidates, order := candidates + recs, next;
      remaining := remaining - {c};
    }
  }

  /**
   * The order in which the categories are visited changes the order of the
   * candidates but not which candidates there are.
   */
  lemma CandidatesIndependentOfOrder(o1: seq<Id>, o2: seq<Id>, totals: map<Id, real>, cards: seq<CreditCard>, categories: map<Id, Category>)
    requires Ordering.Distinct(o1) && Ordering.Distinct(o2)
    requires Ordering.Elements(o1) == Ordering.Elements(o2)
    ensures multiset(CandidatesInOrder(o1, totals, cards, categories))
      == multiset(CandidatesInOrder(o2, totals, cards, categories))
  {
    Ordering.FlatMapPermutation(o1, o2, CategoryPart(totals, cards, categories));
  }

  // ---------------------------------------------------------------------
  // Ranking

  function ScoreOf(r: RecommendationResponse): real {
    r.score
  }

  /** Non-increasing by score (ties in any order). */
  predicate ScoreSorted(s: seq<RecommendationResponse>) {
    Ordering.SortedBy(s, ScoreOf)
  }

  /**
   * sort.Slice with "score greater than": in place, by non-increasing
   * score. The library sort is not stable and the result's order among
   * equal scores is not specified, so only that much is promised.
   */
  method SortByScore(a: array<RecommendationResponse>)
    modifies a
    ensures ScoreSorted(a[..])
    ensures multiset(a[..]) == multiset(old(a[..]))
  {
    Ordering.SortDescending(a, ScoreOf);
  }

  /** The number of recommendations kept. */
  const MaxRecommendations: nat := 10

  /** The first ten (or fewer) of a ranking. */
  function Top(ranked: seq<RecommendationResponse>): (top: seq<RecommendationResponse>)
    ensures |top| == if |ranked| < MaxRecommendations then |ranked| else MaxRecommendations
    ensures top <= ranked
  {
    if |ranked| > MaxRecommendations then ranked[..MaxRecommendations] else ranked
  }

  /** The scores of a ranking, in order. */
  function Scores(s: seq<RecommendationResponse>): (r: seq<real>)
    ensures |r| == |s| && forall i :: 0 <= i < |s| ==> r[i] == s[i].score
  {
    Ordering.KeysOf(s, ScoreOf)
  }

  /**
   * Two rankings of the same candidates have the same scores in the same
   * places: however the ties fall, position k always carries the same
   * score.
   */
  lemma RankingScoresDetermined(a: seq<RecommendationResponse>, b: seq<RecommendationResponse>)
    requires ScoreSorted(a) && ScoreSorted(b)
    requires multiset(a) == multiset(b)
    ensures Scores(a) == Scores(b)
  {
    Ordering.SortedKeysDetermined(a, b, ScoreOf);
  }
}
