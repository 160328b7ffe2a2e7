/**
 * The stateful half of the recommendation service
 * (backend/internal/service/recommendation_service.go): the store of
 * saved recommendations, saveRecommendations, GenerateRecommendations and
 * GetRecommendationsByUser.
 *
 * The repositories are not modelled as a database. The loads that
 * GenerateRecommendations performs are passed in as their results, and
 * every store call that can fail is told whether it fails by a FaultPlan.
 */
module Service {
  import opened Wrappers
  import opened Models
  import Ranking
  import Ordering

  // ---------------------------------------------------------------------
  // Errors and injected failures

  /** A failed repository call. */
  datatype StoreError = LoadFailed | DeleteFailed | InsertFailed | ReadFailed

  /** The three wrapped errors GenerateRecommendations can return. */
  datatype GenerateError =
    | SpendingLoadError(cause: StoreError)   // "failed to get user spending: ..."
    | CardLoadError(cause: StoreError)       // "failed to get active cards: ..."
    | SaveError(cause: StoreError)           // "failed to save recommendations: ..."

  /**
   * Which store writes of one save fail: the delete, and the insert with
   * the given index (counted from 0), if any.
   */
  datatype FaultPlan = FaultPlan(deleteFails: bool, failingInsert: Option<nat>)

  const NoFaults := FaultPlan(false, None)

  // ---------------------------------------------------------------------
  // The store of saved recommendations

  /**
   * The rows of the recommendations table, filed by user in insertion
   * order, and the identifier the next insert receives. Deleted rows are
   * gone (the soft-delete column hides them from every read).
   */
  datatype StoreState = StoreState(rows: map<Id, seq<Recommendation>>, nextID: Id)

  /** The rows a read by user returns. */
  function RowsOf(s: StoreState, userID: Id): seq<Recommendation> {
    if userID in s.rows then s.rows[userID] else []
  }

  /** Every row is filed under its own user and has an identifier already handed out. */
  predicate WellFiled(s: StoreState) {
    forall u :: u in s.rows ==>
      forall i :: 0 <= i < |s.rows[u]| ==> s.rows[u][i].userID == u && s.rows[u][i].id < s.nextID
  }

  class RecommendationStore {
    var rows: map<Id, seq<Recommendation>>
    var nextID: Id

    function State(): StoreState
      reads this
    {
      StoreState(rows, nextID)
    }

    /** An empty table; identifiers start at 1. */
    constructor ()
      ensures State() == StoreState(map[], 1)
      ensures WellFiled(State())
    {
      rows, nextID := map[], 1;
    }

    /** DeleteByUserID: removes every row of the user, or fails and changes nothing. */
    method DeleteByUserID(userID: Id, fails: bool) returns (err: Option<StoreError>)
      modifies this
      ensures fails ==> err == Some(DeleteFailed) && State() == old(State())
      ensures !fails ==> err == None && rows == old(rows)[userID := []] && nextID == old(nextID)
      ensures WellFiled(old(State())) ==> WellFiled(State())
    {
      if fails {
        return Some(DeleteFailed);
      }
      rows := rows[userID := []];
      err := None;
    }

    /**
     * Create: appends the row to its user's rows under the next identifier
     * (the identifier the caller put in the row is replaced), or fails and
     * changes nothing.
     */
    method Create(row: Recommendation, fails: bool) returns (err: Option<StoreError>)
      modifies this
      ensures fails ==> err == Some(InsertFailed) && State() == old(State())
      ensures !fails ==> err == None && nextID == old(nextID) + 1
      ensures !fails ==> rows == old(rows)[row.userID := RowsOf(old(State()), row.userID) + [row.(id := old(nextID))]]
      ensures WellFiled(old(State())) ==> WellFiled(State())
    {
      if fails {
        return Some(InsertFailed);
      }
      rows := rows[row.userID := RowsOf(State(), row.userID) + [row.(id := nextID)]];
      nextID := nextID + 1;
      err := None;
    }

    /** GetByUserID: the user's rows in insertion order. */
    method GetByUserID(userID: Id, fails: bool) returns (r: Result<seq<Recommendation>, StoreError>)
      ensures fails ==> r == Failure(ReadFailed)
      ensures !fails ==> r == Success(RowsOf(State(), userID))
    {
      if fails {
        return Failure(ReadFailed);
      }
      r := Success(RowsOf(State(), userID));
    }
  }

  // ---------------------------------------------------------------------
  // What a save writes

  /** The row saved for one recommendation. */
  function ToRow(userID: Id, r: RecommendationResponse, id: Id): (row: Recommendation)
    ensures row.id == id && row.userID == userID
    ensures row.cardID == r.card.id && row.categoryID == r.category.id
    ensures row.score == r.score && row.estimatedReward == r.estimatedReward && row.reason == r.reason
  {
    Recommendation(id, userID, r.category.id, r.card.id, r.score, r.estimatedReward, r.reason)
  }

  /** The rows saved for `recs`, numbered from `firstID`. */
  function StoredRows(userID: Id, recs: seq<RecommendationResponse>, firstID: Id): (rows: seq<Recommendation>)
    ensures |rows| == |recs|
  {
    seq(|recs|, i requires 0 <= i < |recs| => ToRow(userID, recs[i], firstID + i))
  }

  /** How many of `n` ranked recommendations a save tries to insert. */
  function SavedCount(n: nat): (k: nat)
    ensures k <= n && k <= Ranking.MaxRecommendations
    ensures k == n || k == Ranking.MaxRecommendations
  {
    if n > Ranking.MaxRecommendations then Ranking.MaxRecommendations else n
  }

  /** How many of the `k` inserts succeed: those before the failing one. */
  function InsertedCount(faults: FaultPlan, k: nat): (j: nat)
    ensures j <= k
    ensures j < k <==> faults.failingInsert.Some? && faults.failingInsert.value < k
  {
    match faults.failingInsert
    case Some(f) => if f < k then f else k
    case None => k
  }

  /** The error a save of `n` ranked recommendations returns, if any. */
  function SaveOutcome(faults: FaultPlan, n: nat): (err: Option<StoreError>)
    ensures err == None <==>
      && !faults.deleteFails
      && (faults.failingInsert.Some? ==> faults.failingInsert.value >= SavedCount(n))
  {
    if faults.deleteFails then Some(DeleteFailed)
    else if InsertedCount(faults, SavedCount(n)) < SavedCount(n) then Some(InsertFailed)
    else None
  }

  /**
   * The store after a save: unchanged when the delete fails; otherwise the
   * user's rows are replaced by the rows of the inserts that succeeded.
   */
  function AfterSave(s: StoreState, userID: Id, recs: seq<RecommendationResponse>, faults: FaultPlan): (t: StoreState)
    ensures faults.deleteFails ==> t == s
    ensures forall u :: u != userID ==> RowsOf(t, u) == RowsOf(s, u)
    ensures !faults.deleteFails ==>
      |RowsOf(t, userID)| <= Ranking.MaxRecommendations && t.nextID == s.nextID + |RowsOf(t, userID)|
  {
    if faults.deleteFails then s
    else
      var k := InsertedCount(faults, SavedCount(|recs|));
      StoreState(s.rows[userID := StoredRows(userID, recs[..k], s.nextID)], s.nextID + k)
  }

  /**
   * saveRecommendations: delete the user's rows, then insert the first ten
   * (or fewer) recommendations one by one, stopping at the first failure.
   */
  method SaveRecommendations(store: RecommendationStore, userID: Id, recs: seq<RecommendationResponse>, faults: FaultPlan)
    returns (err: Option<StoreError>)
    modifies store
    ensures store.State() == AfterSave(old(store.State()), userID, recs, faults)
    ensures err == SaveOutcome(faults, |recs|)
  {
    err := store.DeleteByUserID(userID, faults.deleteFails);
    if err.Some? {
      return;
    }
    var count := |recs|;
    if count > Ranking.MaxRecommendations {
      count := Ranking.MaxRecommendations;
    }
    ghost var first := store.nextID;
    for i := 0 to count
      invariant err == None
      invariant faults.failingInsert.Some? ==> faults.failingInsert.value >= i
      invariant store.nextID == first + i
      invariant store.rows == old(store.rows)[userID := StoredRows(userID, recs[..i], first)]
    {
      err := store.Create(ToRow(userID, recs[i], 0), faults.failingInsert == Some(i));
      if err.Some? {
        return;
      }
      assert StoredRows(userID, recs[..i + 1], first)
        == StoredRows(userID, recs[..i], first) + [ToRow(userID, recs[i], first + i)];
    }
  }

  /** A save that does not fail leaves exactly the top of the ranking under the user. */
  lemma SaveReplacesUserRows(s: StoreState, userID: Id, recs: seq<RecommendationResponse>)
    ensures SaveOutcome(NoFaults, |recs|) == None
    ensures RowsOf(AfterSave(s, userID, recs, NoFaults), userID) == StoredRows(userID, Ranking.Top(recs), s.nextID)
    ensures |RowsOf(AfterSave(s, userID, recs, NoFaults), userID)| <= Ranking.MaxRecommendations
  {
    assert recs[..SavedCount(|recs|)] == Ranking.Top(recs);
  }

  /** Whatever fails, a save touches no other user's rows. */
  lemma SaveLeavesOtherUsers(s: StoreState, userID: Id, recs: seq<RecommendationResponse>, faults: FaultPlan, other: Id)
    requires other != userID
    ensures RowsOf(AfterSave(s, userID, recs, faults), other) == RowsOf(s, other)
  {
  }

  /**
   * There is no rollback: when insert j fails, the old rows are gone and
   * the j rows inserted before it stay.
   */
  lemma FailedInsertKeepsEarlierRows(s: StoreState, userID: Id, recs: seq<RecommendationResponse>, j: nat)
    requires j < SavedCount(|recs|)
    ensures var faults := FaultPlan(false, Some(j));
      && SaveOutcome(faults, |recs|) == Some(InsertFailed)
      && RowsOf(AfterSave(s, userID, recs, faults), userID) == StoredRows(userID, recs[..j], s.nextID)
  {
  }

  /** A failed delete changes nothing, whatever the inserts would have done. */
  lemma FailedDeleteChangesNothing(s: StoreState, userID: Id, recs: seq<RecommendationResponse>, failingInsert: Option<nat>)
    ensures var faults := FaultPlan(true, failingInsert);
      && SaveOutcome(faults, |recs|) == Some(DeleteFailed)
      && AfterSave(s, userID, recs, faults) == s
  {
  }

  /** A save keeps every row filed under its own user with an identifier handed out. */
  lemma SavePreservesWellFiled(s: StoreState, userID: Id, recs: seq<RecommendationResponse>, faults: FaultPlan)
    requires WellFiled(s)
    ensures WellFiled(AfterSave(s, userID, recs, faults))
  {
    var t := AfterSave(s, userID, recs, faults);
    forall u | u in t.rows
      ensures forall i :: 0 <= i < |t.rows[u]| ==> t.rows[u][i].userID == u && t.rows[u][i].id < t.nextID
    {
      if u != userID {
        assert t.rows[u] == s.rows[u];
      }
    }
  }

  // ---------------------------------------------------------------------
  // GenerateRecommendations

  /**
   * GenerateRecommendations for `userID`, given the results of loading the
   * user's spending records and the active cards, the category table the
   * per-category lookup reads, and which store writes fail. `order` is the
   * order the category map was visited in, and `ranked` the candidates
   * after sorting, before the cut to ten.
   */
  method GenerateRecommendations(
    store: RecommendationStore, userID: Id,
    spendings: Result<seq<UserSpending>, StoreError>,
    activeCards: Result<seq<CreditCard>, StoreError>,
    categories: map<Id, Category>, faults: FaultPlan)
    returns (result: Result<seq<RecommendationResponse>, GenerateError>, ghost order: seq<Id>, ghost ranked: seq<RecommendationResponse>)
    modifies store
    ensures spendings.Failure? ==>
      && result == Failure(SpendingLoadError(spendings.error))
      && store.State() == old(store.State())
    ensures spendings.Success? && activeCards.Failure? ==>
      && result == Failure(CardLoadError(activeCards.error))
      && store.State() == old(store.State())
    ensures spendings.Success? && activeCards.Success? ==>
      var totals := Ranking.Totals(spendings.value);
      && Ordering.Distinct(order) && Ordering.Elements(order) == totals.Keys
      && Ranking.ScoreSorted(ranked)
      && multiset(ranked) == multiset(Ranking.CandidatesInOrder(order, totals, activeCards.value, categories))
      && store.State() == AfterSave(old(store.State()), userID, ranked, faults)
      && result == match SaveOutcome(faults, |ranked|)
                   case Some(e) => Failure(SaveError(e))
                   case None => Success(Ranking.Top(ranked))
  {
    order, ranked := [], [];
    if spendings.Failure? {
      return Failure(SpendingLoadError(spendings.error)), order, ranked;
    }
    if activeCards.Failure? {
      return Failure(CardLoadError(activeCards.error)), order, ranked;
    }
    var totals := Ranking.AggregateSpending(spendings.value);
    var candidates;
    candidates, order := Ranking.CollectCandidates(totals, activeCards.value, categories);
    var a := new RecommendationResponse[|candidates|](i requires 0 <= i < |candidates| => candidates[i]);
    assert a[..] == candidates;
    Ranking.SortByScore(a);
    var sorted := a[..];
    ranked := sorted;
    var err := SaveRecommendations(store, userID, sorted, faults);
    if err.Some? {
      return Failure(SaveError(err.value)), order, ranked;
    }
    result := Success(Ranking.Top(sorted));
  }

  /**
   * Neither the order the categories are visited in nor the order the sort
   * leaves equal scores in changes the returned scores: two runs on the
   * same inputs return lists of the same length with the same score at
   * every position.
   */
  lemma ReturnedScoresIndependentOfOrder(
    o1: seq<Id>, o2: seq<Id>, r1: seq<RecommendationResponse>, r2: seq<RecommendationResponse>,
    totals: map<Id, real>, cards: seq<CreditCard>, categories: map<Id, Category>)
    requires Ordering.Distinct(o1) && Ordering.Elements(o1) == totals.Keys
    requires Ordering.Distinct(o2) && Ordering.Elements(o2) == totals.Keys
    requires Ranking.ScoreSorted(r1) && multiset(r1) == multiset(Ranking.CandidatesInOrder(o1, totals, cards, categories))
    requires Ranking.ScoreSorted(r2) && multiset(r2) == multiset(Ranking.CandidatesInOrder(o2, totals, cards, categories))
    ensures Ranking.Scores(Ranking.Top(r1)) == Ranking.Scores(Ranking.Top(r2))
  {
    Ranking.CandidatesIndependentOfOrder(o1, o2, totals, cards, categories);
    Ranking.RankingScoresDetermined(r1, r2);
    assert |r1| == |multiset(r1)| == |multiset(r2)| == |r2|;
    var t1, t2 := Ranking.Top(r1), Ranking.Top(r2);
    forall i | 0 <= i < |t1| ensures t1[i].score == t2[i].score {
      assert Ranking.Scores(r1)[i] == Ranking.Scores(r2)[i];
    }
  }

  // ---------------------------------------------------------------------
  // GetRecommendationsByUser

  /** The card the read preloads: the catalogue's card without its benefits, or a zero card. */
  function PreloadedCard(id: Id, cards: map<Id, CreditCard>): (card: CreditCard)
    ensures card.cardBenefits == []
    ensures id in cards ==> card == cards[id].(cardBenefits := [])
    ensures id !in cards ==> card.id == 0 && !card.isActive
  {
    if id in cards then cards[id].(cardBenefits := [])
    else CreditCard(0, "", "", "", 0.0, "", "", 0.0, "", "", false, [])
  }

  /** The category the read preloads, or a zero category. */
  function PreloadedCategory(id: Id, categories: map<Id, Category>): Category {
    if id in categories then categories[id] else Category(0, "", "", "")
  }

  /** The response built from a stored row. */
  function FromRow(row: Recommendation, cards: map<Id, CreditCard>, categories: map<Id, Category>): (r: RecommendationResponse)
    ensures r.id == row.id && r.score == row.score
    ensures r.estimatedReward == row.estimatedReward && r.reason == row.reason
    ensures r.card.cardBenefits == []
    ensures row.cardID in cards ==> r.card == cards[row.cardID].(cardBenefits := [])
    ensures row.categoryID in categories ==> r.category == categories[row.categoryID]
  {
    RecommendationResponse(
      row.id, PreloadedCard(row.cardID, cards), PreloadedCategory(row.categoryID, categories),
      row.score, row.estimatedReward, row.reason)
  }

  /** The responses for a user's rows, in the order of the rows. */
  function Responses(rows: seq<Recommendation>, cards: map<Id, CreditCard>, categories: map<Id, Category>): (r: seq<RecommendationResponse>)
    ensures |r| == |rows|
  {
    seq(|rows|, i requires 0 <= i < |rows| => FromRow(rows[i], cards, categories))
  }

  /**
   * GetRecommendationsByUser: reads the user's rows and turns each into a
   * response, in the order read; a failed read is returned as is.
   */
  method GetRecommendationsByUser(
    store: RecommendationStore, userID: Id, readFails: bool,
    cards: map<Id, CreditCard>, categories: map<Id, Category>)
    returns (result: Result<seq<RecommendationResponse>, StoreError>)
    ensures readFails ==> result == Failure(ReadFailed)
    ensures !readFails ==> result == Success(Responses(RowsOf(store.State(), userID), cards, categories))
  {
    var recs := store.GetByUserID(userID, readFails);
    if recs.Failure? {
      return Failure(recs.error);
    }
    var rows := recs.value;
    var responses := [];
    for i := 0 to |rows|
      invariant responses == Responses(rows[..i], cards, categories)
    {
      responses := responses + [FromRow(rows[i], cards, categories)];
    }
    assert rows[..|rows|] == rows;
    result := Success(responses);
  }

  /** The catalogue the read preloads from still holds the card and category of `r`. */
  predicate Catalogued(r: RecommendationResponse, cards: map<Id, CreditCard>, categories: map<Id, Category>) {
    && r.card.id in cards && cards[r.card.id].(cardBenefits := []) == r.card.(cardBenefits := [])
    && r.category.id in categories && categories[r.category.id] == r.category
  }

  /** What reading back saved recommendations gives: each with its new identifier and without card benefits. */
  function Reloaded(recs: seq<RecommendationResponse>, firstID: Id): (r: seq<RecommendationResponse>)
    ensures |r| == |recs|
  {
    seq(|recs|, i requires 0 <= i < |recs| => recs[i].(id := firstID + i, card := recs[i].card.(cardBenefits := [])))
  }

  /**
   * Saving and reading back round-trip: every field a response carries
   * survives, except the identifier, which the store assigns, and the
   * card's benefits, which the read does not load.
   */
  lemma StoredRowsReadBack(userID: Id, recs: seq<RecommendationResponse>, firstID: Id,
                           cards: map<Id, CreditCard>, categories: map<Id, Category>)
    requires forall i :: 0 <= i < |recs| ==> Catalogued(recs[i], cards, categories)
    ensures Responses(StoredRows(userID, recs, firstID), cards, categories) == Reloaded(recs, firstID)
  {
    var lhs, rhs := Responses(StoredRows(userID, recs, firstID), cards, categories), Reloaded(recs, firstID);
    forall i | 0 <= i < |recs| ensures lhs[i] == rhs[i] {
      assert Catalogued(recs[i], cards, categories);
    }
  }

  /**
   * After a save that does not fail, reading the user's recommendations
   * back gives the list GenerateRecommendations returned, numbered from
   * the store's next identifier and without card benefits.
   */
  lemma GeneratedThenRead(s: StoreState, userID: Id, ranked: seq<RecommendationResponse>,
                          cards: map<Id, CreditCard>, categories: map<Id, Category>)
    requires forall i :: 0 <= i < |Ranking.Top(ranked)| ==> Catalogued(Ranking.Top(ranked)[i], cards, categories)
    ensures Responses(RowsOf(AfterSave(s, userID, ranked, NoFaults), userID), cards, categories)
      == Reloaded(Ranking.Top(ranked), s.nextID)
  {
    SaveReplacesUserRows(s, userID, ranked);
    StoredRowsReadBack(userID, Ranking.Top(ranked), s.nextID, cards, categories);
  }
}
