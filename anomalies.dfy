/**
  `AIInsightsService.detect_anomalies`: every expense of the user dated within
  the last 30 days is compared with the user's other expenses of the same
  category in that window; when those others have a non-zero population
  standard deviation and the expense lies more than two of them from their
  mean, an `AnomalyAlert` is recorded.

  An alert keeps the mean and the variance of the comparison amounts; the
  standard deviation is the non-negative root of the variance, and the
  `anomaly_score` and `expected_range` it yields are stated in the lemmas
  below for any such root.
*/
module Anomalies {
  import opened Dates
  import opened Statistics
  import opened Ledger
  import opened Wrappers

  datatype AnomalyAlert = AnomalyAlert(user: int, expenseId: int, actual: real, mean: real, variance: real)

  /** `timezone.now() - timedelta(days=30)`, compared as a date. */
  function WindowStart(today: Date): (r: Date)
    requires Valid(today)
    ensures Valid(r) && Before(r, today)
  {
    SubtractDays(today, 30)
  }

  /** The other expenses `target` is measured against: the same user's expenses in the
      same category dated on or after `start`, minus `target` itself (by id). */
  function ComparisonSet(ledger: seq<Expense>, user: int, target: Expense, start: Date): (r: seq<Expense>)
    ensures forall e :: e in r <==>
      e in ledger && e.user == user && e.category == target.category && LessEq(start, e.date) && e.id != target.id
  {
    if ledger == [] then []
    else
      var rest := ComparisonSet(ledger[..|ledger| - 1], user, target, start);
      var e := ledger[|ledger| - 1];
      assert ledger == ledger[..|ledger| - 1] + [e];
      if e.user == user && e.category == target.category && LessEq(start, e.date) && e.id != target.id
      then rest + [e] else rest
  }

  /** How often each row occurs in the comparison set: as often as in the ledger when
      it passes the filters, never otherwise. */
  lemma {:induction false} ComparisonSetCounts(ledger: seq<Expense>, user: int, target: Expense, start: Date)
    ensures forall e ::
      multiset(ComparisonSet(ledger, user, target, start))[e] ==
        (if e.user == user && e.category == target.category && LessEq(start, e.date) && e.id != target.id
         then multiset(ledger)[e] else 0)
    decreases |ledger|
  {
    if ledger != [] {
      var front := ledger[..|ledger| - 1];
      ComparisonSetCounts(front, user, target, start);
      assert ledger == front + [ledger[|ledger| - 1]];
    }
  }

  /** The body of the loop: the alert raised for `target`, if any. */
  function CheckExpense(ledger: seq<Expense>, user: int, target: Expense, start: Date): (r: Option<AnomalyAlert>)
    ensures r.Some? ==> r.value.user == user && r.value.expenseId == target.id && r.value.actual == target.amount
    ensures r.Some? ==> r.value.variance > 0.0 && BeyondTwoStd(r.value.actual, r.value.mean, r.value.variance)
  {
    var others := ComparisonSet(ledger, user, target, start);
    if |others| == 0 then None
    else
      var amounts := Amounts(others);
      var mean := Mean(amounts);
      var variance := Variance(amounts);
      if BeyondTwoStd(target.amount, mean, variance)
      then Some(AnomalyAlert(user, target.id, target.amount, mean, variance))
      else None
  }

  /** The alerts of the loop after it has visited `visited`, in visiting order. */
  function AlertsFor(ledger: seq<Expense>, user: int, start: Date, visited: seq<Expense>): seq<AnomalyAlert>
  {
    if visited == [] then []
    else
      var front := AlertsFor(ledger, user, start, visited[..|visited| - 1]);
      match CheckExpense(ledger, user, visited[|visited| - 1], start)
      case None => front
      case Some(a) => front + [a]
  }

  /** `detect_anomalies()`: one pass over the window, recording each alert in order. */
  method DetectAnomalies(user: int, today: Date, ledger: seq<Expense>) returns (alerts: seq<AnomalyAlert>)
    requires Valid(today)
    ensures alerts == AlertsFor(ledger, user, WindowStart(today), Since(ledger, user, WindowStart(today)))
    ensures forall a :: a in alerts ==> a.user == user && a.variance > 0.0 && BeyondTwoStd(a.actual, a.mean, a.variance)
    ensures forall a :: a in alerts ==>
      (exists e :: e in Since(ledger, user, WindowStart(today)) && CheckExpense(ledger, user, e, WindowStart(today)) == Some(a))
  {
    var start := WindowStart(today);
    var expenses := Since(ledger, user, start);
    alerts := [];
    for i := 0 to |expenses|
      invariant alerts == AlertsFor(ledger, user, start, expenses[..i])
    {
      assert expenses[..i + 1][..i] == expenses[..i];
      var alert := CheckExpense(ledger, user, expenses[i], start);
      if alert.Some? {
        alerts := alerts + [alert.value];
      }
    }
    assert expenses[..|expenses|] == expenses;
    AlertsForSound(ledger, user, start, expenses);
  }

  /** Every alert of the loop belongs to the user, passes the rule, and is the check's alert
      for a visited expense. */
  lemma AlertsForSound(ledger: seq<Expense>, user: int, start: Date, visited: seq<Expense>)
    ensures forall a :: a in AlertsFor(ledger, user, start, visited) ==>
      a.user == user && a.variance > 0.0 && BeyondTwoStd(a.actual, a.mean, a.variance)
    ensures forall a :: a in AlertsFor(ledger, user, start, visited) ==>
      exists e :: e in visited && CheckExpense(ledger, user, e, start) == Some(a)
  {
    AlertsForExactly(ledger, user, start, visited);
    forall a | a in AlertsFor(ledger, user, start, visited)
      ensures a.user == user && a.variance > 0.0 && BeyondTwoStd(a.actual, a.mean, a.variance)
    {
      var e :| e in visited && CheckExpense(ledger, user, e, start) == Some(a);
    }
  }

  /** The alerts are exactly the results of `CheckExpense` on the visited expenses. */
  lemma {:induction false} AlertsForExactly(ledger: seq<Expense>, user: int, start: Date, visited: seq<Expense>)
    ensures forall a :: a in AlertsFor(ledger, user, start, visited) <==>
      exists e :: e in visited && CheckExpense(ledger, user, e, start) == Some(a)
    decreases |visited|
  {
    if visited != [] {
      var front := visited[..|visited| - 1];
      var last := visited[|visited| - 1];
      assert visited == front + [last];
      AlertsForExactly(ledger, user, start, front);
      forall a ensures a in AlertsFor(ledger, user, start, visited) <==>
        exists e :: e in visited && CheckExpense(ledger, user, e, start) == Some(a)
      {
        if exists e :: e in visited && CheckExpense(ledger, user, e, start) == Some(a) {
          var e :| e in visited && CheckExpense(ledger, user, e, start) == Some(a);
          if e != last {
            assert e in front;
          }
        }
      }
    }
  }

  /** An expense never belongs to its own comparison set. */
  lemma NotOwnComparison(ledger: seq<Expense>, user: int, target: Expense, start: Date)
    ensures target !in ComparisonSet(ledger, user, target, start)
  {
  }

  /** With no other same-category expense in the window there is no alert. */
  lemma NoAlertWithoutOthers(ledger: seq<Expense>, user: int, target: Expense, start: Date)
    requires forall e :: e in ledger ==>
      (e.user == user && e.category == target.category && LessEq(start, e.date) ==> e.id == target.id)
    ensures CheckExpense(ledger, user, target, start) == None
  {
  }

  /** When all the others have the same amount the spread is zero, and no amount, however
      far off, raises an alert. */
  lemma NoAlertWhenOthersEqual(ledger: seq<Expense>, user: int, target: Expense, start: Date)
    requires AllEqual(Amounts(ComparisonSet(ledger, user, target, start)))
    ensures CheckExpense(ledger, user, target, start) == None
  {
    var amounts := Amounts(ComparisonSet(ledger, user, target, start));
    if |amounts| > 0 {
      ZeroVarianceIffAllEqual(amounts);
    }
  }

  /** The rule is the z-score rule of the source: with `std` the root of the variance of the
      others, an alert is raised exactly when `std > 0` and `|amount - mean| / std > 2`. */
  lemma AlertIffZScore(ledger: seq<Expense>, user: int, target: Expense, start: Date, std: real)
    requires |ComparisonSet(ledger, user, target, start)| > 0
    requires std >= 0.0 && Square(std) == Variance(Amounts(ComparisonSet(ledger, user, target, start)))
    ensures var mean := Mean(Amounts(ComparisonSet(ledger, user, target, start)));
      CheckExpense(ledger, user, target, start).Some? <==> std > 0.0 && Abs(target.amount - mean) / std > 2.0
  {
    var amounts := Amounts(ComparisonSet(ledger, user, target, start));
    BeyondTwoStdIffZScore(target.amount, Mean(amounts), Variance(amounts), std);
  }

  /** Every recorded alert has `anomaly_score = |actual - mean| / std > 2`, its expected range
      `[mean - 2 std, mean + 2 std]` is well formed, and the actual amount lies strictly outside it. */
  lemma AlertScoreAndRange(a: AnomalyAlert, std: real)
    requires a.variance > 0.0 && BeyondTwoStd(a.actual, a.mean, a.variance)
    requires std >= 0.0 && Square(std) == a.variance
    ensures std > 0.0 && Abs(a.actual - a.mean) / std > 2.0
    ensures a.mean - 2.0 * std <= a.mean + 2.0 * std
    ensures a.actual < a.mean - 2.0 * std || a.actual > a.mean + 2.0 * std
  {
    BeyondTwoStdIffZScore(a.actual, a.mean, a.variance, std);
    OutsideExpectedRange(a.actual, a.mean, a.variance, std);
  }

  function Day(d: int): Date {
    Date(2024, 5, d)
  }

  /** Others of 10, 10, 10, 10 and a target of 100: zero spread, so no alert. */
  lemma EqualOthersExample()
    ensures var ledger := [Expense(1, 7, "food", 10.0, Day(2)), Expense(2, 7, "food", 10.0, Day(3)),
                           Expense(3, 7, "food", 10.0, Day(4)), Expense(4, 7, "food", 10.0, Day(5)),
                           Expense(5, 7, "food", 100.0, Day(6))];
      CheckExpense(ledger, 7, ledger[4], Day(1)) == None
  {
    var ledger := [Expense(1, 7, "food", 10.0, Day(2)), Expense(2, 7, "food", 10.0, Day(3)),
                   Expense(3, 7, "food", 10.0, Day(4)), Expense(4, 7, "food", 10.0, Day(5)),
                   Expense(5, 7, "food", 100.0, Day(6))];
    var others := ComparisonSet(ledger, 7, ledger[4], Day(1));
    var amounts := Amounts(others);
    forall i | 0 <= i < |amounts| ensures amounts[i] == 10.0 {
      assert others[i] in others;
    }
    NoAlertWhenOthersEqual(ledger, 7, ledger[4], Day(1));
  }

  /** Others of 10 and 12 have mean 11 and standard deviation 1: an amount of 13 is exactly
      two deviations away and is not flagged, an amount of 14 is. */
  lemma StrictThresholdExample()
    ensures var ledger := [Expense(1, 7, "food", 10.0, Day(2)), Expense(2, 7, "food", 12.0, Day(3))];
      CheckExpense(ledger, 7, Expense(3, 7, "food", 13.0, Day(4)), Day(1)) == None &&
      CheckExpense(ledger, 7, Expense(3, 7, "food", 14.0, Day(4)), Day(1)).Some?
  {
    var ledger := [Expense(1, 7, "food", 10.0, Day(2)), Expense(2, 7, "food", 12.0, Day(3))];
    var at := Expense(3, 7, "food", 13.0, Day(4));
    var past := Expense(3, 7, "food", 14.0, Day(4));
    OthersExample(ledger, at);
    OthersExample(ledger, past);
    TenTwelveStatistics();
    assert Square(13.0 - 11.0) == 4.0;
    assert Square(14.0 - 11.0) == 9.0;
  }

  lemma OthersExample(ledger: seq<Expense>, target: Expense)
    requires ledger == [Expense(1, 7, "food", 10.0, Day(2)), Expense(2, 7, "food", 12.0, Day(3))]
    requires target.id == 3 && target.category == "food"
    ensures Amounts(ComparisonSet(ledger, 7, target, Day(1))) == [10.0, 12.0]
  {
    assert ledger[..1] == [ledger[0]];
    assert ComparisonSet(ledger[..0], 7, target, Day(1)) == [];
    assert ComparisonSet(ledger[..1], 7, target, Day(1)) == [ledger[0]];
    assert ComparisonSet(ledger, 7, target, Day(1)) == ledger;
  }

  lemma TenTwelveStatistics()
    ensures Mean([10.0, 12.0]) == 11.0 && Variance([10.0, 12.0]) == 1.0
  {
    var xs := [10.0, 12.0];
    assert xs[1..] == [12.0] && xs[1..][1..] == [];
    assert Sum(xs) == 22.0;
    assert Square(10.0 - 11.0) == 1.0 && Square(12.0 - 11.0) == 1.0;
    assert SquaredDeviation(xs, 11.0) == 2.0;
  }
}
