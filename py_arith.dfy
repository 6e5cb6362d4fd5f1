/**
  Python's mixed-type arithmetic on the three numeric kinds the analytics
  services combine: `int`, `decimal.Decimal` (every amount column, and what
  `Avg`, `np.mean` and `np.std` yield over them) and `float` (literals such as
  `1.2` and the result of `float(...)`). `int` combines with either of the
  others, but a `Decimal` and a `float` refuse each other with `TypeError`.
  Values are kept as exact reals; float rounding is not modelled.

  With it, the two service steps that combine the kinds are stated as written
  and shown to raise on every input that reaches them with a non-zero average
  or a non-zero spread.
*/
module PyArith {
  import opened Wrappers
  import opened Dates
  import opened Statistics
  import opened Ledger
  import opened Anomalies
  import opened Forecasts

  datatype PyNum = PyInt(i: int) | PyDecimal(d: real) | PyFloat(f: real)

  datatype PyError = TypeError

  function Value(a: PyNum): real {
    match a
    case PyInt(i) => i as real
    case PyDecimal(d) => d
    case PyFloat(f) => f
  }

  /** `Decimal` with `float`, in either order, has no arithmetic. */
  predicate Mixable(a: PyNum, b: PyNum) {
    !(a.PyDecimal? && b.PyFloat?) && !(a.PyFloat? && b.PyDecimal?)
  }

  /** The kind of a mixable result: `float` wins, then `Decimal`, else `int`. */
  function Wrap(a: PyNum, b: PyNum, v: real): (r: PyNum)
    requires Mixable(a, b)
    ensures Value(r) == v || r.PyInt?
  {
    if a.PyFloat? || b.PyFloat? then PyFloat(v)
    else if a.PyDecimal? || b.PyDecimal? then PyDecimal(v)
    else PyInt(v.Floor)
  }

  /** `a * b`. */
  function Mul(a: PyNum, b: PyNum): (r: Result<PyNum, PyError>)
    ensures r.Err? <==> !Mixable(a, b)
    ensures r.Ok? ==> Value(r.value) == Value(a) * Value(b)
  {
    if !Mixable(a, b) then Err(TypeError)
    else if a.PyInt? && b.PyInt? then Ok(PyInt(a.i * b.i))
    else Ok(Wrap(a, b, Value(a) * Value(b)))
  }

  /** `a - b`. */
  function Sub(a: PyNum, b: PyNum): (r: Result<PyNum, PyError>)
    ensures r.Err? <==> !Mixable(a, b)
    ensures r.Ok? ==> Value(r.value) == Value(a) - Value(b)
  {
    if !Mixable(a, b) then Err(TypeError)
    else if a.PyInt? && b.PyInt? then Ok(PyInt(a.i - b.i))
    else Ok(Wrap(a, b, Value(a) - Value(b)))
  }

  /** `aggregate(avg=Avg('amount'))['avg'] or 0`: the `Decimal` average, except that a zero
      `Decimal` is falsy and is replaced by the `int` 0. */
  function AverageAsWritten(avg: real): (a: PyNum)
    ensures Value(a) == avg
    ensures a.PyDecimal? <==> avg != 0.0
  {
    if avg == 0.0 then PyInt(0) else PyDecimal(avg)
  }

  /** `avg_monthly * 4 * 1.2` as written. */
  function RecommendedAsWritten(avg: real): Result<PyNum, PyError> {
    match Mul(AverageAsWritten(avg), PyInt(4))
    case Err(e) => Err(e)
    case Ok(current) => Mul(current, PyFloat(1.2))
  }

  /** The 20% buffer as written raises exactly when the average is non-zero: `Decimal * 4` is
      a `Decimal`, and a `Decimal` times the float `1.2` is a `TypeError`. A zero average has
      become the `int` 0, and `0 * 4 * 1.2` is the float 0. */
  lemma RecommendedAsWrittenRaises(avg: real)
    ensures RecommendedAsWritten(avg).Err? <==> avg != 0.0
    ensures RecommendedAsWritten(avg).Err? ==> RecommendedAsWritten(avg).error == TypeError
    ensures avg == 0.0 ==> RecommendedAsWritten(avg) == Ok(PyFloat(0.0))
  {
    var current := Mul(AverageAsWritten(avg), PyInt(4));
    if avg != 0.0 {
      assert current.Ok? && current.value.PyDecimal?;
    } else {
      assert current == Ok(PyInt(0));
    }
  }

  /** `generate_budget_recommendations()` as written: the loop stops with the error at the
      first category that has an expense in the window and a non-zero average. */
  function RecommendationsAsWritten(window: seq<Expense>, user: int, cs: seq<string>): Result<seq<Recommendation>, PyError>
  {
    if cs == [] then Ok([])
    else
      match RecommendationsAsWritten(window, user, cs[..|cs| - 1])
      case Err(e) => Err(e)
      case Ok(front) =>
        var c := cs[|cs| - 1];
        if |InCategory(window, c)| > 0 then
          var avg := Average(InCategory(window, c));
          match RecommendedAsWritten(avg)
          case Err(e) => Err(e)
          case Ok(amount) => Ok(front + [Recommendation(user, c, Value(amount), Value(AverageAsWritten(avg)) * 4.0, Confidence)])
        else Ok(front)
  }

  /** As written, the service raises as soon as a listed category has expenses in the window
      with a non-zero average; otherwise it succeeds, with the intended recommendations, which
      then all recommend 0. */
  lemma RecommendationsAsWrittenNeverRecommend(window: seq<Expense>, user: int, cs: seq<string>)
    ensures RecommendationsAsWritten(window, user, cs).Ok? <==>
      forall c :: c in cs && |InCategory(window, c)| > 0 ==> Average(InCategory(window, c)) == 0.0
    ensures RecommendationsAsWritten(window, user, cs).Ok? ==>
      RecommendationsAsWritten(window, user, cs).value == RecommendationsFor(window, user, cs)
    ensures RecommendationsAsWritten(window, user, cs).Ok? ==>
      forall r :: r in RecommendationsAsWritten(window, user, cs).value ==> r.recommendedAmount == 0.0
  {
    WrittenSucceedsIffZero(window, user, cs);
    WrittenAgreesWhenOk(window, user, cs);
    RecommendationsForShape(window, user, cs);
    var written := RecommendationsAsWritten(window, user, cs);
    if written.Ok? {
      forall r | r in written.value ensures r.recommendedAmount == 0.0 {
        assert exists q :: q in RecommendationsFor(window, user, cs) && q.category == r.category;
      }
    }
  }

  lemma {:induction false} WrittenSucceedsIffZero(window: seq<Expense>, user: int, cs: seq<string>)
    ensures RecommendationsAsWritten(window, user, cs).Ok? <==>
      forall c :: c in cs && |InCategory(window, c)| > 0 ==> Average(InCategory(window, c)) == 0.0
    decreases |cs|
  {
    if cs != [] {
      var front := cs[..|cs| - 1];
      var c := cs[|cs| - 1];
      assert cs == front + [c];
      WrittenSucceedsIffZero(window, user, front);
      if |InCategory(window, c)| > 0 {
        RecommendedAsWrittenRaises(Average(InCategory(window, c)));
        assert c in cs;
      }
    }
  }

  lemma {:induction false} WrittenAgreesWhenOk(window: seq<Expense>, user: int, cs: seq<string>)
    ensures RecommendationsAsWritten(window, user, cs).Ok? ==>
      RecommendationsAsWritten(window, user, cs).value == RecommendationsFor(window, user, cs)
    decreases |cs|
  {
    if cs != [] {
      var front := cs[..|cs| - 1];
      var c := cs[|cs| - 1];
      WrittenAgreesWhenOk(window, user, front);
      if |InCategory(window, c)| > 0 {
        var avg := Average(InCategory(window, c));
        RecommendedAsWrittenRaises(avg);
        if avg == 0.0 && RecommendationsAsWritten(window, user, front).Ok? {
          WrittenZeroStep(window, user, cs);
        }
      }
    }
  }

  /** One more category with expenses and a zero average: both lists grow by the same
      recommendation of 0. */
  lemma WrittenZeroStep(window: seq<Expense>, user: int, cs: seq<string>)
    requires cs != [] && |InCategory(window, cs[|cs| - 1])| > 0
    requires Average(InCategory(window, cs[|cs| - 1])) == 0.0
    requires RecommendationsAsWritten(window, user, cs[..|cs| - 1]).Ok?
    ensures RecommendationsAsWritten(window, user, cs) ==
      Ok(RecommendationsAsWritten(window, user, cs[..|cs| - 1]).value + [RecommendationFor(window, user, cs[|cs| - 1])])
  {
    var c := cs[|cs| - 1];
    RecommendedAsWrittenRaises(0.0);
    assert RecommendationFor(window, user, c) == Recommendation(user, c, 0.0, 0.0, Confidence);
  }

  /** One food expense of 10 in the window: the intended service recommends 48 for food,
      the service as written raises. */
  lemma RecommendationDiscrepancy()
    ensures var window := [Expense(1, 7, "food", 10.0, Day(2))];
      RecommendationsFor(window, 7, ["food"]) == [Recommendation(7, "food", 48.0, 40.0, Confidence)] &&
      RecommendationsAsWritten(window, 7, ["food"]) == Err(TypeError)
  {
    var window := [Expense(1, 7, "food", 10.0, Day(2))];
    assert ["food"][..0] == [];
    assert InCategory(window, "food") == window by {
      assert window[..0] == [];
    }
    assert Amounts(window) == [10.0];
    assert Total(window) == 10.0;
    assert Average(window) == 10.0;
    RecommendedAsWrittenRaises(10.0);
  }

  /** One food expense of 0.00 in the window: the average has become the `int` 0, and the
      service as written recommends 0 for food, as the intended one does. */
  lemma ZeroAverageExample()
    ensures var window := [Expense(1, 7, "food", 0.0, Day(2))];
      RecommendationsAsWritten(window, 7, ["food"]) == Ok([Recommendation(7, "food", 0.0, 0.0, Confidence)]) &&
      RecommendationsFor(window, 7, ["food"]) == [Recommendation(7, "food", 0.0, 0.0, Confidence)]
  {
    var window := [Expense(1, 7, "food", 0.0, Day(2))];
    assert ["food"][..0] == [];
    assert InCategory(window, "food") == window by {
      assert window[..0] == [];
    }
    assert Amounts(window) == [0.0];
    assert Total(window) == 0.0;
    assert Average(window) == 0.0;
    RecommendedAsWrittenRaises(0.0);
    var cs := ["food"];
    assert cs[..|cs| - 1] == [] && cs[|cs| - 1] == "food";
    assert RecommendationsAsWritten(window, 7, []) == Ok([]);
    assert RecommendedAsWritten(Average(InCategory(window, "food"))) == Ok(PyFloat(0.0));
    assert Value(AverageAsWritten(0.0)) * 4.0 == 0.0;
    var zero := Recommendation(7, "food", 0.0, 0.0, Confidence);
    assert RecommendationsAsWritten(window, 7, cs) == Ok([] + [zero]);
    assert [] + [zero] == [zero];
  }

  /** The body of the anomaly loop as written: `float(expense.amount) - mean` with the
      `Decimal` mean of the others, reached whenever their spread is non-zero. */
  function CheckExpenseAsWritten(ledger: seq<Expense>, user: int, target: Expense, start: Date): Result<Option<AnomalyAlert>, PyError>
  {
    var others := ComparisonSet(ledger, user, target, start);
    if |others| == 0 then Ok(None)
    else
      var amounts := Amounts(others);
      if Variance(amounts) > 0.0 then
        match Sub(PyFloat(target.amount), PyDecimal(Mean(amounts)))
        case Err(e) => Err(e)
        case Ok(_) => Ok(CheckExpense(ledger, user, target, start))
      else Ok(None)
  }

  /** `detect_anomalies()` as written: the first error ends the loop. */
  function AlertsAsWritten(ledger: seq<Expense>, user: int, start: Date, visited: seq<Expense>): Result<seq<AnomalyAlert>, PyError>
  {
    if visited == [] then Ok([])
    else
      match AlertsAsWritten(ledger, user, start, visited[..|visited| - 1])
      case Err(e) => Err(e)
      case Ok(front) =>
        match CheckExpenseAsWritten(ledger, user, visited[|visited| - 1], start)
        case Err(e) => Err(e)
        case Ok(None) => Ok(front)
        case Ok(Some(a)) => Ok(front + [a])
  }

  /** As written, no anomaly is ever reported: the detector raises as soon as some expense
      has others with a non-zero spread, and otherwise finds nothing. */
  lemma {:induction false} AlertsAsWrittenNeverAlert(ledger: seq<Expense>, user: int, start: Date, visited: seq<Expense>)
    ensures AlertsAsWritten(ledger, user, start, visited).Ok? ==> AlertsAsWritten(ledger, user, start, visited).value == []
    ensures AlertsAsWritten(ledger, user, start, visited).Ok? <==>
      forall e :: e in visited ==> CheckExpenseAsWritten(ledger, user, e, start) == Ok(None)
    decreases |visited|
  {
    if visited != [] {
      var front := visited[..|visited| - 1];
      var last := visited[|visited| - 1];
      assert visited == front + [last];
      AlertsAsWrittenNeverAlert(ledger, user, start, front);
      var others := ComparisonSet(ledger, user, last, start);
      if |others| > 0 && Variance(Amounts(others)) > 0.0 {
        assert CheckExpenseAsWritten(ledger, user, last, start) == Err(TypeError);
      }
    }
  }

  /** Others of 10 and 12 and an expense of 14: the intended rule flags it, the code as
      written raises instead. */
  lemma AnomalyDiscrepancy()
    ensures var ledger := [Expense(1, 7, "food", 10.0, Day(2)), Expense(2, 7, "food", 12.0, Day(3))];
      var target := Expense(3, 7, "food", 14.0, Day(4));
      CheckExpense(ledger, 7, target, Day(1)).Some? &&
      CheckExpenseAsWritten(ledger, 7, target, Day(1)) == Err(TypeError)
  {
    var ledger := [Expense(1, 7, "food", 10.0, Day(2)), Expense(2, 7, "food", 12.0, Day(3))];
    var target := Expense(3, 7, "food", 14.0, Day(4));
    StrictThresholdExample();
    OthersExample(ledger, target);
    TenTwelveStatistics();
  }
}
