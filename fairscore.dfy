/** The placeholder path of `FairScoreModel` (backend/app/models/fairscore_model.py): a
    fixed-weight linear score over seven features, truncated and clamped to 0..100, the
    three largest contributions as explanations, and suggestions for the negative ones. */
module FairScore {
  import opened Wrappers
  import opened Numeric
  import opened Dict
  import opened Sorting

  /** `_init_placeholder`'s weight table, in its order. */
  const PlaceholderWeights: Dict<real> := [
    ("avg_monthly_inflow", 0.0005),
    ("avg_monthly_outflow", -0.0003),
    ("savings_rate", 30.0),
    ("volatility", -20.0),
    ("part_time_income", 0.001),
    ("academic_score", 5.0),
    ("emi_count", -2.0)
  ]

  const Base: real := 50.0

  datatype Contribution = Contribution(feature: string, contribution: real)

  datatype FairScoreResult = FairScoreResult(score: int, explanations: seq<Contribution>, suggestions: seq<string>)

  // ------------------------------------------------------------ name normalisation

  /** One entry of `features.items()` taken into `normalized`: a monthly average is stored
      under its short name and then under its own name; any other key as it is. */
  function NormalizeEntry(d: Dict<real>, key: string, value: real): Dict<real> {
    if key == "avg_monthly_inflow" then Put(Put(d, "avg_inflow", value), "avg_monthly_inflow", value)
    else if key == "avg_monthly_outflow" then Put(Put(d, "avg_outflow", value), "avg_monthly_outflow", value)
    else Put(d, key, value)
  }

  /** The `normalized` dictionary `predict` builds. */
  function Normalize(features: Dict<real>): Dict<real> {
    if features == [] then []
    else
      var n := |features|;
      NormalizeEntry(Normalize(features[..n - 1]), features[n - 1].0, features[n - 1].1)
  }

  /** The value of the last entry whose key is one of `ks`. */
  function Latest(f: Dict<real>, ks: set<string>): (r: Option<real>)
    ensures r.None? <==> forall j :: 0 <= j < |f| ==> f[j].0 !in ks
  {
    if f == [] then None
    else if f[|f| - 1].0 in ks then Some(f[|f| - 1].1)
    else Latest(f[..|f| - 1], ks)
  }

  /** The input keys whose value a normalised key takes. */
  function Sources(k: string): set<string> {
    if k == "avg_inflow" then {"avg_inflow", "avg_monthly_inflow"}
    else if k == "avg_outflow" then {"avg_outflow", "avg_monthly_outflow"}
    else {k}
  }

  /** One entry taken into `normalized` sets exactly the keys it is a source of. */
  lemma {:induction false} NormalizeEntryGet(d: Dict<real>, key: string, value: real, k: string)
    ensures Get(NormalizeEntry(d, key, value), k) == if key in Sources(k) then Some(value) else Get(d, k)
  {
    if key == "avg_monthly_inflow" {
      assert NormalizeEntry(d, key, value) == Put(Put(d, "avg_inflow", value), "avg_monthly_inflow", value);
      assert key in Sources(k) <==> k == "avg_inflow" || k == "avg_monthly_inflow";
      GetPut(Put(d, "avg_inflow", value), "avg_monthly_inflow", value, k);
      GetPut(d, "avg_inflow", value, k);
    } else if key == "avg_monthly_outflow" {
      assert NormalizeEntry(d, key, value) == Put(Put(d, "avg_outflow", value), "avg_monthly_outflow", value);
      assert key in Sources(k) <==> k == "avg_outflow" || k == "avg_monthly_outflow";
      GetPut(Put(d, "avg_outflow", value), "avg_monthly_outflow", value, k);
      GetPut(d, "avg_outflow", value, k);
    } else {
      assert NormalizeEntry(d, key, value) == Put(d, key, value);
      assert key in Sources(k) <==> k == key;
      GetPut(d, key, value, k);
    }
  }

  /** Each normalised key holds the value of the last input entry under one of its
      sources: the short average names take the monthly averages too, every other key
      is copied. */
  lemma {:induction false} NormalizeGet(f: Dict<real>, k: string)
    ensures Get(Normalize(f), k) == Latest(f, Sources(k))
  {
    if f != [] {
      var n := |f|;
      NormalizeGet(f[..n - 1], k);
      NormalizeEntryGet(Normalize(f[..n - 1]), f[n - 1].0, f[n - 1].1, k);
    }
  }

  /** In a dictionary, the last entry under a key is the only one. */
  lemma {:induction false} LatestUnique(f: Dict<real>, k: string)
    requires UniqueKeys(f)
    ensures Latest(f, {k}) == Get(f, k)
  {
    if f != [] {
      var n := |f|;
      assert Keys(f[..n - 1]) == Keys(f)[..n - 1];
      assert UniqueKeys(f[..n - 1]);
      LatestUnique(f[..n - 1], k);
      GetSnoc(f, k);
      if f[n - 1].0 == k {
        assert Keys(f)[n - 1] == k;
      }
    }
  }

  lemma {:induction false} GetSnoc(f: Dict<real>, k: string)
    requires f != []
    ensures Get(f, k) == if k in Keys(f[..|f| - 1]) then Get(f[..|f| - 1], k)
                         else if f[|f| - 1].0 == k then Some(f[|f| - 1].1) else None
  {
    var n := |f|;
    if n > 1 {
      assert f[1..][..n - 2] == f[..n - 1][1..];
      GetSnoc(f[1..], k);
      assert Keys(f[..n - 1]) == [f[0].0] + Keys(f[..n - 1][1..]);
    }
  }

  /** The normalised dictionary has no key twice. */
  lemma {:induction false} NormalizeUnique(f: Dict<real>)
    ensures UniqueKeys(Normalize(f))
  {
    if f != [] {
      var n := |f|;
      var d := Normalize(f[..n - 1]);
      NormalizeUnique(f[..n - 1]);
      var key, value := f[n - 1].0, f[n - 1].1;
      if key == "avg_monthly_inflow" {
        PutUnique(d, "avg_inflow", value);
        PutUnique(Put(d, "avg_inflow", value), "avg_monthly_inflow", value);
      } else if key == "avg_monthly_outflow" {
        PutUnique(d, "avg_outflow", value);
        PutUnique(Put(d, "avg_outflow", value), "avg_monthly_outflow", value);
      } else {
        PutUnique(d, key, value);
      }
    }
  }

  /** For a dictionary of features, every key other than the two short names keeps its
      value. */
  lemma {:induction false} NormalizeKeeps(f: Dict<real>, k: string)
    requires UniqueKeys(f) && k != "avg_inflow" && k != "avg_outflow"
    ensures Get(Normalize(f), k) == Get(f, k)
  {
    NormalizeGet(f, k);
    LatestUnique(f, k);
  }

  /** The two aliases of `predict`: a short average name fed by a monthly one. */
  predicate Alias(short: string, monthly: string) {
    (short == "avg_inflow" && monthly == "avg_monthly_inflow")
    || (short == "avg_outflow" && monthly == "avg_monthly_outflow")
  }

  /** Without a short name in the input, the short name takes the monthly average. */
  lemma {:induction false} NormalizeAlias(f: Dict<real>, short: string, monthly: string)
    requires Alias(short, monthly)
    requires UniqueKeys(f) && short !in Keys(f)
    ensures Get(Normalize(f), short) == Get(f, monthly)
  {
    NormalizeGet(f, short);
    assert Sources(short) == {short, monthly};
    LatestOfAbsent(f, short, monthly);
    LatestUnique(f, monthly);
  }

  lemma {:induction false} LatestOfAbsent(f: Dict<real>, a: string, b: string)
    requires a !in Keys(f)
    ensures Latest(f, {a, b}) == Latest(f, {b})
  {
    if f != [] {
      assert Keys(f[..|f| - 1]) == Keys(f)[..|f| - 1];
      LatestOfAbsent(f[..|f| - 1], a, b);
    }
  }

  // ------------------------------------------------------------ placeholder score

  /** The seven placeholder feature names, in weight-table order. */
  const FeatureNames: seq<string> :=
    ["avg_monthly_inflow", "avg_monthly_outflow", "savings_rate", "volatility", "part_time_income", "academic_score", "emi_count"]

  function Zip(names: seq<string>, values: seq<real>): (d: Dict<real>)
    requires |names| == |values|
    ensures |d| == |names|
  {
    seq(|names|, j requires 0 <= j < |names| => (names[j], values[j]))
  }

  /** The values of `mapped_features`: each input under its short name or else its own
      name, absent ones as 0. */
  function MappedValues(features: Dict<real>): (v: seq<real>)
    ensures |v| == 7
  {
    [GetOr(features, "avg_inflow", GetOr(features, "avg_monthly_inflow", 0.0)),
     GetOr(features, "avg_outflow", GetOr(features, "avg_monthly_outflow", 0.0)),
     GetOr(features, "savings_rate", 0.0),
     GetOr(features, "volatility", 0.0),
     GetOr(features, "part_time_income", 0.0),
     GetOr(features, "academic_score", 0.0),
     GetOr(features, "emi_count", 0.0)]
  }

  /** `mapped_features`. */
  function Mapped(features: Dict<real>): Dict<real> {
    Zip(FeatureNames, MappedValues(features))
  }

  /** The unrounded contribution `value * weight` of one weight. */
  function RawContribution(mapped: Dict<real>, w: (string, real)): real {
    GetOr(mapped, w.0, 0.0) * w.1
  }

  /** `score` after the loop over the weights: the base plus every unrounded
      contribution. */
  function RawScore(weights: Dict<real>, mapped: Dict<real>): real {
    if weights == [] then Base
    else RawScore(weights[..|weights| - 1], mapped) + RawContribution(mapped, weights[|weights| - 1])
  }

  /** The `contributions` list: one rounded entry per weight, in table order. */
  function Contributions(weights: Dict<real>, mapped: Dict<real>): (cs: seq<Contribution>)
    ensures |cs| == |weights|
  {
    if weights == [] then []
    else
      var w := weights[|weights| - 1];
      Contributions(weights[..|weights| - 1], mapped) + [Contribution(w.0, Round2(RawContribution(mapped, w)))]
  }

  function Abs(x: real): real {
    if x < 0.0 then -x else x
  }

  function AbsKeys(cs: seq<Contribution>): (keys: seq<real>)
    ensures |keys| == |cs|
  {
    seq(|cs|, j requires 0 <= j < |cs| => Abs(cs[j].contribution))
  }

  function Min(a: nat, b: nat): nat {
    if a < b then a else b
  }

  /** The positions of the contributions, largest absolute value first, ties in table
      order (`sorted(..., key=abs, reverse=True)` is stable). */
  function Ranking(cs: seq<Contribution>): (idx: seq<int>)
    ensures |idx| == |cs| && ValidIndices(AbsKeys(cs), idx)
  {
    Sort(AbsKeys(cs), KeyDescStable, Range(|cs|))
  }

  /** `sorted_contribs`: the first three of the ranking. */
  function Top3(cs: seq<Contribution>): (top: seq<Contribution>)
    ensures |top| == Min(3, |cs|)
  {
    var idx := Ranking(cs);
    seq(Min(3, |cs|), j requires 0 <= j < Min(3, |cs|) => cs[idx[j]])
  }

  // ------------------------------------------------------------ suggestions

  const DefaultSuggestions: seq<string> := ["Maintain consistent savings pattern.", "Reduce spending volatility for better score."]

  /** The suggestion one explanation triggers, if any. */
  function Specific(c: Contribution): Option<string> {
    if c.contribution >= 0.0 then None
    else if c.feature == "savings_rate" then Some("Increase savings rate by automating monthly transfers.")
    else if c.feature == "volatility" then Some("Reduce spending volatility by smoothing bill payments.")
    else if c.feature == "academic_score" then Some("Improve academic performance to boost FairScore.")
    else if c.feature == "emi_count" then Some("Reduce number of active EMIs to improve score.")
    else None
  }

  /** A suggestion is triggered exactly by a negative contribution of savings rate,
      volatility, academic score or EMI count, and is never one of the defaults. */
  lemma {:induction false} SpecificCases(c: Contribution)
    ensures Specific(c).Some? <==> (c.contribution < 0.0
              && (c.feature == "savings_rate" || c.feature == "volatility"
                  || c.feature == "academic_score" || c.feature == "emi_count"))
    ensures Specific(c).Some? ==> Specific(c).value !in DefaultSuggestions
  {
  }

  /** The triggered suggestions, in explanation order. */
  function Collected(top: seq<Contribution>): (s: seq<string>)
    ensures |s| <= |top|
  {
    if top == [] then []
    else
      var last := top[|top| - 1];
      Collected(top[..|top| - 1]) + (if Specific(last).Some? then [Specific(last).value] else [])
  }

  /** `_generate_suggestions`: the triggered suggestions, or the two defaults when none
      is triggered, at most three. */
  function Suggestions(top: seq<Contribution>): seq<string> {
    var s := Collected(top);
    if s == [] then DefaultSuggestions else s[..Min(3, |s|)]
  }

  /** `_predict_placeholder(features)`. */
  function Placeholder(weights: Dict<real>, features: Dict<real>): (r: FairScoreResult)
    ensures 0 <= r.score <= 100
  {
    var mapped := Mapped(features);
    var top := Top3(Contributions(weights, mapped));
    FairScoreResult(Clamp(Trunc(RawScore(weights, mapped)), 0, 100), top, Suggestions(top))
  }

  // ------------------------------------------------------------ what the placeholder promises

  const WeightValues: seq<real> := [0.0005, -0.0003, 30.0, -20.0, 0.001, 5.0, -2.0]

  lemma {:induction false} PlaceholderWeightsZip()
    ensures PlaceholderWeights == Zip(FeatureNames, WeightValues)
  {
  }

  predicate DistinctNames(names: seq<string>) {
    forall a, b :: 0 <= a < b < |names| ==> names[a] != names[b]
  }

  lemma {:induction false} FeatureNamesDistinct()
    ensures DistinctNames(FeatureNames)
  {
  }

  lemma {:induction false} GetZip(names: seq<string>, values: seq<real>, j: nat)
    requires |names| == |values| && DistinctNames(names) && j < |names|
    ensures Get(Zip(names, values), names[j]) == Some(values[j])
  {
    if j > 0 {
      assert Zip(names, values)[1..] == Zip(names[1..], values[1..]);
      assert names[1..][j - 1] == names[j];
      GetZip(names[1..], values[1..], j - 1);
    }
  }

  /** `w[0] * v[0] + ... + w[n-1] * v[n-1]`. */
  function Dot(w: seq<real>, v: seq<real>, n: nat): real
    requires n <= |w| && n <= |v|
  {
    if n == 0 then 0.0 else Dot(w, v, n - 1) + v[n - 1] * w[n - 1]
  }

  /** The loop's score over a weight table and inputs under the same distinct names: the
      base plus each input times its weight. */
  lemma {:induction false} RawScoreZip(names: seq<string>, w: seq<real>, v: seq<real>, n: nat)
    requires |names| == |w| == |v| && DistinctNames(names) && n <= |names|
    ensures RawScore(Zip(names, w)[..n], Zip(names, v)) == Base + Dot(w, v, n)
  {
    if n > 0 {
      var ws, mapped := Zip(names, w)[..n], Zip(names, v);
      assert ws[..n - 1] == Zip(names, w)[..n - 1];
      assert ws[n - 1] == (names[n - 1], w[n - 1]);
      RawScoreLast(ws, mapped);
      RawScoreZip(names, w, v, n - 1);
      GetZip(names, v, n - 1);
      assert GetOr(mapped, names[n - 1], 0.0) == v[n - 1];
    }
  }

  lemma {:induction false} RawScoreLast(weights: Dict<real>, mapped: Dict<real>)
    requires weights != []
    ensures var n := |weights|;
            RawScore(weights, mapped) == RawScore(weights[..n - 1], mapped) + RawContribution(mapped, weights[n - 1])
  {
  }

  /** The placeholder score before truncation, as a linear form of the seven inputs. */
  function Linear(v: seq<real>): real
    requires |v| == 7
  {
    Base + 0.0005 * v[0] - 0.0003 * v[1] + 30.0 * v[2] - 20.0 * v[3] + 0.001 * v[4] + 5.0 * v[5] - 2.0 * v[6]
  }

  lemma {:induction false} DotWeights(v: seq<real>)
    requires |v| == 7
    ensures Base + Dot(WeightValues, v, 7) == Linear(v)
  {
    var w := WeightValues;
    assert Dot(w, v, 1) == v[0] * 0.0005;
    assert Dot(w, v, 2) == Dot(w, v, 1) + v[1] * -0.0003;
    assert Dot(w, v, 3) == Dot(w, v, 2) + v[2] * 30.0;
    assert Dot(w, v, 4) == Dot(w, v, 3) + v[3] * -20.0;
    assert Dot(w, v, 5) == Dot(w, v, 4) + v[4] * 0.001;
    assert Dot(w, v, 6) == Dot(w, v, 5) + v[5] * 5.0;
  }

  /** Additive decomposition: the unclamped score is the base plus each input times its
      weight. */
  lemma {:induction false} RawScoreLinear(features: Dict<real>)
    ensures RawScore(PlaceholderWeights, Mapped(features)) == Linear(MappedValues(features))
  {
    var v := MappedValues(features);
    PlaceholderWeightsZip();
    FeatureNamesDistinct();
    RawScoreZip(FeatureNames, WeightValues, v, 7);
    assert Zip(FeatureNames, WeightValues)[..7] == Zip(FeatureNames, WeightValues);
    DotWeights(v);
  }

  /** The score of the placeholder model: `clamp(int(Linear), 0, 100)`. */
  lemma {:induction false} PlaceholderScore(features: Dict<real>)
    ensures Placeholder(PlaceholderWeights, features).score == Clamp(Trunc(Linear(MappedValues(features))), 0, 100)
  {
    RawScoreLinear(features);
  }

  /** Without any feature the score is exactly the base 50. */
  lemma {:induction false} EmptyFeaturesScore()
    ensures Placeholder(PlaceholderWeights, Normalize([])).score == 50
  {
    PlaceholderScore([]);
  }

  /** Raising one input while the others stay the same moves the score the way its
      weight's sign says: never down for a positive weight, never up for a negative one
      (avg_monthly_outflow, volatility, emi_count). */
  lemma {:induction false} ScoreFollowsWeightSign(f: Dict<real>, g: Dict<real>, k: nat)
    requires k < 7
    requires forall j :: 0 <= j < 7 && j != k ==> MappedValues(f)[j] == MappedValues(g)[j]
    requires MappedValues(f)[k] <= MappedValues(g)[k]
    ensures PlaceholderWeights[k].1 >= 0.0 ==> Placeholder(PlaceholderWeights, f).score <= Placeholder(PlaceholderWeights, g).score
    ensures PlaceholderWeights[k].1 <= 0.0 ==> Placeholder(PlaceholderWeights, f).score >= Placeholder(PlaceholderWeights, g).score
  {
    PlaceholderScore(f);
    PlaceholderScore(g);
    var x, y := Linear(MappedValues(f)), Linear(MappedValues(g));
    if PlaceholderWeights[k].1 >= 0.0 {
      assert x <= y;
      TruncMonotone(x, y);
      ClampMonotone(Trunc(x), Trunc(y), 0, 100);
    }
    if PlaceholderWeights[k].1 <= 0.0 {
      assert y <= x;
      TruncMonotone(y, x);
      ClampMonotone(Trunc(y), Trunc(x), 0, 100);
    }
  }

  /** The ranking orders every position by non-increasing absolute contribution, ties in
      table order, and uses each position exactly once. */
  lemma {:induction false} RankingSorted(cs: seq<Contribution>)
    ensures SortedBy(AbsKeys(cs), KeyDescStable, Ranking(cs))
    ensures multiset(Ranking(cs)) == multiset(Range(|cs|))
  {
    SortSorted(AbsKeys(cs), KeyDescStable, Range(|cs|));
  }

  /** The explanations are the largest contributions: in non-increasing absolute value, and
      none of the others is larger in absolute value than any of them. */
  lemma {:induction false} Top3Largest(cs: seq<Contribution>)
    ensures var top := Top3(cs);
            forall a, b :: 0 <= a < b < |top| ==> Abs(top[a].contribution) >= Abs(top[b].contribution)
    ensures var top := Top3(cs);
            forall a, k :: 0 <= a < |top| && 0 <= k < |cs| && cs[k] !in top ==>
                           Abs(top[a].contribution) >= Abs(cs[k].contribution)
  {
    var idx, keys, top := Ranking(cs), AbsKeys(cs), Top3(cs);
    RankingSorted(cs);
    TopMembers(cs);
    forall a, b | 0 <= a < b < |top| ensures Abs(top[a].contribution) >= Abs(top[b].contribution) {
      assert Before(keys, KeyDescStable, idx[a], idx[b]);
    }
    forall a, k | 0 <= a < |top| && 0 <= k < |cs| && cs[k] !in top
      ensures Abs(top[a].contribution) >= Abs(cs[k].contribution)
    {
      assert Range(|cs|)[k] == k;
      assert k in multiset(Range(|cs|));
      assert k in multiset(idx);
      var p :| 0 <= p < |idx| && idx[p] == k;
      assert Before(keys, KeyDescStable, idx[a], idx[p]);
    }
  }

  /** The first three of the ranking are the explanations. */
  lemma {:induction false} TopMembers(cs: seq<Contribution>)
    ensures forall p :: 0 <= p < |Top3(cs)| ==> cs[Ranking(cs)[p]] in Top3(cs)
  {
    var top := Top3(cs);
    forall p | 0 <= p < |top| ensures cs[Ranking(cs)[p]] in top {
      assert top[p] == cs[Ranking(cs)[p]];
    }
  }

  /** The placeholder always explains exactly three of its seven contributions. */
  lemma {:induction false} ExplanationCount(features: Dict<real>)
    ensures |Placeholder(PlaceholderWeights, features).explanations| == 3
  {
  }

  /** No suggestion is collected exactly when none is triggered. */
  lemma {:induction false} CollectedEmpty(top: seq<Contribution>)
    ensures Collected(top) == [] <==> forall j :: 0 <= j < |top| ==> Specific(top[j]).None?
  {
    if top != [] {
      var init := top[..|top| - 1];
      CollectedEmpty(init);
      assert forall j :: 0 <= j < |init| ==> init[j] == top[j];
    }
  }

  /** Every collected suggestion is triggered by some explanation. */
  lemma {:induction false} CollectedSound(top: seq<Contribution>)
    ensures forall s :: s in Collected(top) ==> exists j :: 0 <= j < |top| && Specific(top[j]) == Some(s)
  {
    if top != [] {
      var init := top[..|top| - 1];
      CollectedSound(init);
      assert forall j :: 0 <= j < |init| ==> init[j] == top[j];
    }
  }

  /** Every triggered suggestion is collected. */
  lemma {:induction false} CollectedComplete(top: seq<Contribution>)
    ensures forall j :: 0 <= j < |top| && Specific(top[j]).Some? ==> Specific(top[j]).value in Collected(top)
  {
    if top != [] {
      var init := top[..|top| - 1];
      CollectedComplete(init);
      assert forall j :: 0 <= j < |init| ==> init[j] == top[j];
    }
  }

  /** One to three suggestions; the two defaults exactly when no explanation triggers a
      specific one; with at most three explanations, each triggered suggestion is given
      and every suggestion is a default or triggered. */
  lemma {:induction false} SuggestionsShape(top: seq<Contribution>)
    ensures 1 <= |Suggestions(top)| <= 3
    ensures Suggestions(top) == DefaultSuggestions <==> forall j :: 0 <= j < |top| ==> Specific(top[j]).None?
    ensures |top| <= 3 ==> forall j :: 0 <= j < |top| && Specific(top[j]).Some? ==> Specific(top[j]).value in Suggestions(top)
    ensures |top| <= 3 ==> forall s :: s in Suggestions(top) ==>
              s in DefaultSuggestions || exists j :: 0 <= j < |top| && Specific(top[j]) == Some(s)
  {
    CollectedEmpty(top);
    CollectedSound(top);
    CollectedComplete(top);
    var c := Collected(top);
    if c != [] {
      assert c[0] in c;
      var j :| 0 <= j < |top| && Specific(top[j]) == Some(c[0]);
      SpecificCases(top[j]);
      assert Suggestions(top)[0] !in DefaultSuggestions;
      if |top| <= 3 {
        assert c[..Min(3, |c|)] == c;
      }
    }
  }

  // ------------------------------------------------------------ the model object

  class FairScoreModel {
    /** The weight table, fixed when the model is built. */
    const featureWeights: Dict<real>

    /** The model without a trained model file: the placeholder weights. */
    constructor()
      ensures featureWeights == PlaceholderWeights
    {
      featureWeights := PlaceholderWeights;
    }

    /** `predict(features)` on the placeholder path. */
    method Predict(features: Dict<real>) returns (r: FairScoreResult)
      ensures r == Placeholder(featureWeights, Normalize(features))
    {
      var normalized: Dict<real> := [];
      var i := 0;
      while i < |features|
        invariant 0 <= i <= |features|
        invariant normalized == Normalize(features[..i])
      {
        assert features[..i + 1][..i] == features[..i];
        var key, value := features[i].0, features[i].1;
        assert Normalize(features[..i + 1]) == NormalizeEntry(normalized, key, value);
        if key == "avg_monthly_inflow" {
          normalized := Put(normalized, "avg_inflow", value);
          normalized := Put(normalized, "avg_monthly_inflow", value);
        } else if key == "avg_monthly_outflow" {
          normalized := Put(normalized, "avg_outflow", value);
          normalized := Put(normalized, "avg_monthly_outflow", value);
        } else {
          normalized := Put(normalized, key, value);
        }
        i := i + 1;
      }
      assert features[..i] == features;
      r := PredictPlaceholder(normalized);
    }

    /** `_predict_placeholder(features)`. */
    method PredictPlaceholder(features: Dict<real>) returns (r: FairScoreResult)
      ensures r == Placeholder(featureWeights, features)
    {
      var mapped := Mapped(features);
      var contributions, score := WeighFeatures(mapped);
      var boundedScore := Clamp(Trunc(score), 0, 100);
      var sortedContribs := Top3(contributions);
      var suggestions := GenerateSuggestions(sortedContribs);
      r := FairScoreResult(boundedScore, sortedContribs, suggestions);
    }

    /** The loop of `_predict_placeholder` over the weight table: the rounded contribution
        of each weight, and the base plus the unrounded ones. */
    method WeighFeatures(mapped: Dict<real>) returns (contributions: seq<Contribution>, score: real)
      ensures contributions == Contributions(featureWeights, mapped)
      ensures score == RawScore(featureWeights, mapped)
    {
      contributions := [];
      score := Base;
      var i := 0;
      while i < |featureWeights|
        invariant 0 <= i <= |featureWeights|
        invariant contributions == Contributions(featureWeights[..i], mapped)
        invariant score == RawScore(featureWeights[..i], mapped)
      {
        assert featureWeights[..i + 1][..i] == featureWeights[..i];
        var feat, weight := featureWeights[i].0, featureWeights[i].1;
        var value := GetOr(mapped, feat, 0.0);
        var contribution := value * weight;
        assert contribution == RawContribution(mapped, featureWeights[..i + 1][i]);
        contributions := contributions + [Contribution(feat, Round2(contribution))];
        score := score + contribution;
        i := i + 1;
      }
      assert featureWeights[..i] == featureWeights;
    }

    /** `_generate_suggestions(features, top_contribs)`. */
    method GenerateSuggestions(topContribs: seq<Contribution>) returns (s: seq<string>)
      ensures s == Suggestions(topContribs)
    {
      var suggestions: seq<string> := [];
      var i := 0;
      while i < |topContribs|
        invariant 0 <= i <= |topContribs|
        invariant suggestions == Collected(topContribs[..i])
      {
        assert topContribs[..i + 1][..i] == topContribs[..i];
        var feat, contribVal := topContribs[i].feature, topContribs[i].contribution;
        if feat == "savings_rate" && contribVal < 0.0 {
          suggestions := suggestions + ["Increase savings rate by automating monthly transfers."];
        } else if feat == "volatility" && contribVal < 0.0 {
          suggestions := suggestions + ["Reduce spending volatility by smoothing bill payments."];
        } else if feat == "academic_score" && contribVal < 0.0 {
          suggestions := suggestions + ["Improve academic performance to boost FairScore."];
        } else if feat == "emi_count" && contribVal < 0.0 {
          suggestions := suggestions + ["Reduce number of active EMIs to improve score."];
        }
        i := i + 1;
      }
      assert topContribs[..i] == topContribs;
      if suggestions == [] {
        suggestions := DefaultSuggestions;
      }
      s := suggestions[..Min(3, |suggestions|)];
    }
  }
}
