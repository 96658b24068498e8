/** `transactions_to_features` (backend/app/utils/feature_builder.py): the parsed SMS
    records folded into the four features the FairScore model reads. */
module FeatureBuilder {
  import opened Wrappers
  import opened Numeric
  import opened Dict
  import opened SmsParser

  /** The fixed volatility placeholder of the feature set (not the metrics' 0.3). */
  const FeatureVolatility: real := 0.25

  /** `max(1, len(transactions))`. */
  function Divisor(ts: seq<Transaction>): (n: nat)
    ensures n >= 1 && (ts != [] ==> n == |ts|)
  {
    if |ts| > 1 then |ts| else 1
  }

  /** `transactions_to_features(transactions)`: the average credit and debit amounts over
      all records of both directions, the savings rate and the volatility placeholder,
      each rounded to cents, under their four keys. */
  function TransactionsToFeatures(ts: seq<Transaction>): (f: Dict<real>)
    ensures Keys(f) == ["avg_monthly_inflow", "avg_monthly_outflow", "savings_rate", "volatility"]
    ensures UniqueKeys(f)
  {
    var inflow, outflow := Flow(ts, Credit), Flow(ts, Debit);
    var n := Divisor(ts) as real;
    [("avg_monthly_inflow", Round2(inflow / n)),
     ("avg_monthly_outflow", Round2(outflow / n)),
     ("savings_rate", Round2(SavingsRate(inflow, outflow))),
     ("volatility", Round2(FeatureVolatility))]
  }

  /** Without credited money the average inflow and the savings rate are zero, and no
      records at all give zero for every feature but the volatility. */
  lemma {:induction false} FeaturesWithoutIncome(ts: seq<Transaction>)
    requires Flow(ts, Credit) == 0.0
    ensures var f := TransactionsToFeatures(ts);
            f[0].1 == 0.0 && f[2].1 == 0.0
            && (ts == [] ==>
                  f == [("avg_monthly_inflow", 0.0), ("avg_monthly_outflow", 0.0), ("savings_rate", 0.0), ("volatility", 0.25)])
  {
    Round2OfCents(0);
    Round2OfCents(25);
  }

  /** The volatility feature is 0.25 whatever the input. */
  lemma {:induction false} FeatureVolatilityFixed(ts: seq<Transaction>)
    ensures Get(TransactionsToFeatures(ts), "volatility") == Some(0.25)
  {
    Round2OfCents(25);
  }

  /** The savings-rate feature is zero without income and at most one with income and
      non-negative amounts, and both averages are non-negative for non-negative amounts. */
  lemma {:induction false} FeatureBounds(ts: seq<Transaction>)
    requires NonNegativeAmounts(ts)
    ensures var f := TransactionsToFeatures(ts);
            (Flow(ts, Credit) == 0.0 ==> f[2].1 == 0.0)
            && f[2].1 <= 1.0 && f[0].1 >= 0.0 && f[1].1 >= 0.0
  {
    var inflow, outflow := Flow(ts, Credit), Flow(ts, Debit);
    FlowBounds(ts, Credit);
    FlowBounds(ts, Debit);
    var n := Divisor(ts) as real;
    Round2OfCents(0);
    Round2OfCents(100);
    Round2Monotone(0.0, inflow / n);
    Round2Monotone(0.0, outflow / n);
    if inflow > 0.0 {
      SavingsRateBounds(inflow, outflow);
      Round2Monotone(SavingsRate(inflow, outflow), 1.0);
    }
  }

  /** Each average is the flow of its direction over `max(1, len(transactions))`, rounded
      to cents (entries in the order `TransactionsToFeatures` states), and the flows are
      the ones the metrics report: with at most one record the averages equal the
      metrics' rounded inflow and outflow. */
  lemma {:induction false} FeaturesAgreeWithMetrics(ts: seq<Transaction>)
    ensures var f, n := TransactionsToFeatures(ts), Divisor(ts) as real;
            var m := ComputeFinancialMetrics(ts);
            f[0].1 == Round2(Flow(ts, Credit) / n) && f[1].1 == Round2(Flow(ts, Debit) / n)
            && f[2].1 == Round2(SavingsRate(Flow(ts, Credit), Flow(ts, Debit)))
            && (|ts| <= 1 ==> f[0].1 == m.monthlySummary.inflow && f[1].1 == m.monthlySummary.outflow)
  {
    if |ts| <= 1 {
      assert Divisor(ts) == 1;
    }
  }
}
