/**
  The two linear forecasts over the last 90 days of a user's expenses:
  `AIPredictionService.generate_predictions` (one prediction per category,
  four times the category's average amount) and
  `AIInsightsService.generate_budget_recommendations` (one recommendation per
  category that has expenses, the same four-times-average spending plus a 20%
  buffer). Creating a row is appending it to the returned list.
*/
module Forecasts {
  import opened Dates
  import opened Statistics
  import opened Ledger

  datatype Prediction = Prediction(
    user: int,
    category: string,
    predictedAmount: real,
    predictionDate: Date,
    confidence: real,
    avgAmount: real,
    count: nat,
    total: real)

  datatype Recommendation = Recommendation(
    user: int,
    category: string,
    recommendedAmount: real,
    currentSpending: real,
    confidence: real)

  /** The fixed confidence both services attach to what they create. */
  const Confidence: real := 0.85

  /** `timezone.now() - timedelta(days=90)`, compared as a date. */
  function HistoryStart(today: Date): (r: Date)
    requires Valid(today)
    ensures Valid(r) && Before(r, today)
  {
    SubtractDays(today, 90)
  }

  /** The prediction created for one row of the category grouping. */
  function PredictionFor(window: seq<Expense>, user: int, today: Date, c: string): (p: Prediction)
    requires Valid(today) && |InCategory(window, c)| > 0
    ensures p.category == c && p.count > 0 && p.predictedAmount == p.avgAmount * 4.0
  {
    var group := InCategory(window, c);
    var avg := Average(group);
    Prediction(user, c, avg * 4.0, AddDays(today, 30), Confidence, avg, |group|, Total(group))
  }

  /** The predictions for the categories `cs`, in order. */
  function PredictionsFor(window: seq<Expense>, user: int, today: Date, cs: seq<string>): (ps: seq<Prediction>)
    requires Valid(today) && forall c :: c in cs ==> |InCategory(window, c)| > 0
    ensures |ps| == |cs|
  {
    if cs == [] then []
    else PredictionsFor(window, user, today, cs[..|cs| - 1]) + [PredictionFor(window, user, today, cs[|cs| - 1])]
  }

  /** `generate_predictions()`: nothing when the 90-day window is empty, otherwise one
      prediction per category of the window. */
  method GeneratePredictions(user: int, today: Date, ledger: seq<Expense>) returns (predictions: seq<Prediction>)
    requires Valid(today)
    ensures var window := Since(ledger, user, HistoryStart(today));
      predictions == PredictionsFor(window, user, today, Categories(window))
    ensures Since(ledger, user, HistoryStart(today)) == [] ==> predictions == []
    ensures forall c :: (exists p :: p in predictions && p.category == c) <==>
      c in Categories(Since(ledger, user, HistoryStart(today)))
    ensures forall p :: p in predictions ==>
      p.user == user && p.confidence == 0.85 && p.predictedAmount == 4.0 * p.avgAmount &&
      p.predictionDate == AddDays(today, 30)
  {
    var window := Since(ledger, user, HistoryStart(today));
    var groups := Categories(window);
    if window == [] {
      return [];
    }
    GroupsNonEmpty(window);
    predictions := [];
    for i := 0 to |groups|
      invariant predictions == PredictionsFor(window, user, today, groups[..i])
    {
      assert groups[..i + 1][..i] == groups[..i];
      predictions := predictions + [PredictionFor(window, user, today, groups[i])];
    }
    assert groups[..|groups|] == groups;
    PredictionsForShape(window, user, today, groups);
  }

  /** Every group of the grouping has an expense. */
  lemma GroupsNonEmpty(window: seq<Expense>)
    ensures forall c :: c in Categories(window) ==> |InCategory(window, c)| > 0
  {
    forall c | c in Categories(window) ensures |InCategory(window, c)| > 0 {
      CategoryNonEmpty(window, c);
    }
  }

  /** Each prediction is for a listed category and is four times its average, and every
      listed category gets one. */
  lemma {:induction false} PredictionsForShape(window: seq<Expense>, user: int, today: Date, cs: seq<string>)
    requires Valid(today) && forall c :: c in cs ==> |InCategory(window, c)| > 0
    ensures forall c :: (exists p :: p in PredictionsFor(window, user, today, cs) && p.category == c) <==> c in cs
    ensures forall p :: p in PredictionsFor(window, user, today, cs) ==>
      p.user == user && p.confidence == 0.85 && p.predictedAmount == 4.0 * p.avgAmount &&
      p.predictionDate == AddDays(today, 30) &&
      p.category in cs && p.avgAmount == Average(InCategory(window, p.category)) &&
      p.total == Total(InCategory(window, p.category))
    decreases |cs|
  {
    if cs != [] {
      var front := cs[..|cs| - 1];
      var last := cs[|cs| - 1];
      assert cs == front + [last];
      PredictionsForShape(window, user, today, front);
      var ps := PredictionsFor(window, user, today, cs);
      assert ps == PredictionsFor(window, user, today, front) + [PredictionFor(window, user, today, last)];
      forall c | c in cs ensures exists p :: p in ps && p.category == c {
        if c == last {
          assert ps[|ps| - 1].category == c;
        } else {
          assert c in front;
        }
      }
    }
  }

  /** The recommendation created for a category with at least one expense in the window:
      the current spending is four times the average, and 20% is added on top. */
  function RecommendationFor(window: seq<Expense>, user: int, c: string): (r: Recommendation)
    requires |InCategory(window, c)| > 0
    ensures r.recommendedAmount == 1.2 * r.currentSpending
    ensures r.recommendedAmount == 4.8 * Average(InCategory(window, c))
  {
    var avg := Average(InCategory(window, c));
    Recommendation(user, c, avg * 4.0 * 1.2, avg * 4.0, Confidence)
  }

  /** The recommendations after visiting the categories `cs` in order. */
  function RecommendationsFor(window: seq<Expense>, user: int, cs: seq<string>): (rs: seq<Recommendation>)
    ensures |rs| <= |cs|
  {
    if cs == [] then []
    else
      var front := RecommendationsFor(window, user, cs[..|cs| - 1]);
      var c := cs[|cs| - 1];
      if |InCategory(window, c)| > 0 then front + [RecommendationFor(window, user, c)] else front
  }

  /** `generate_budget_recommendations()` over `Category.objects.all()` given as `categories`. */
  method GenerateBudgetRecommendations(user: int, today: Date, ledger: seq<Expense>, categories: seq<string>)
    returns (recommendations: seq<Recommendation>)
    requires Valid(today)
    ensures recommendations == RecommendationsFor(Since(ledger, user, HistoryStart(today)), user, categories)
    ensures var window := Since(ledger, user, HistoryStart(today));
      forall c :: (exists r :: r in recommendations && r.category == c) <==>
        (c in categories && exists e :: e in window && e.category == c)
    ensures forall r :: r in recommendations ==>
      r.user == user && r.confidence == 0.85 && r.recommendedAmount == 1.2 * r.currentSpending
  {
    var window := Since(ledger, user, HistoryStart(today));
    recommendations := [];
    for i := 0 to |categories|
      invariant recommendations == RecommendationsFor(window, user, categories[..i])
    {
      assert categories[..i + 1][..i] == categories[..i];
      var c := categories[i];
      if |InCategory(window, c)| > 0 {
        recommendations := recommendations + [RecommendationFor(window, user, c)];
      }
    }
    assert categories[..|categories|] == categories;
    RecommendationsForShape(window, user, categories);
  }

  /** A category gets a recommendation exactly when it is listed and has an expense in the
      window; each recommendation is 1.2 times four times that category's average. */
  lemma {:induction false} RecommendationsForShape(window: seq<Expense>, user: int, cs: seq<string>)
    ensures forall c :: (exists r :: r in RecommendationsFor(window, user, cs) && r.category == c) <==>
      (c in cs && exists e :: e in window && e.category == c)
    ensures forall r :: r in RecommendationsFor(window, user, cs) ==>
      r.user == user && r.confidence == 0.85 && r.recommendedAmount == 1.2 * r.currentSpending &&
      |InCategory(window, r.category)| > 0 && r.currentSpending == 4.0 * Average(InCategory(window, r.category))
    decreases |cs|
  {
    if cs != [] {
      var front := cs[..|cs| - 1];
      var c := cs[|cs| - 1];
      assert cs == front + [c];
      RecommendationsForShape(window, user, front);
      var rs := RecommendationsFor(window, user, cs);
      forall d ensures (exists r :: r in rs && r.category == d) <==> (d in cs && exists e :: e in window && e.category == d)
      {
        if d in cs && exists e :: e in window && e.category == d {
          var e :| e in window && e.category == d;
          assert e in InCategory(window, d);
          if d == c {
            assert rs[|rs| - 1].category == d;
          } else {
            assert d in front;
          }
        }
        if exists r :: r in rs && r.category == d {
          var r :| r in rs && r.category == d;
          var g := InCategory(window, d);
          assert |g| > 0;
          assert g[0] in g;
        }
      }
    }
  }
}
