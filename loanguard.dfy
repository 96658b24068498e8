/** `analyze_text` (backend/app/routes/loanguard.py): a loan agreement scanned line by
    line against a fixed table of risky-clause rules. */
module LoanGuard {
  import opened Text
  import opened Selection

  /** A rule of `RISK_RULES`: its name and the keywords that trigger it. */
  datatype RiskRule = RiskRule(name: string, keywords: seq<string>)

  /** `RISK_RULES`, in table order. */
  const RiskRules: seq<RiskRule> := [
    RiskRule("auto_renew", ["auto-renew", "automatic renewal"]),
    RiskRule("high_apr", ["apr", "interest rate"]),
    RiskRule("hidden_fees", ["processing fee", "penalty", "late fee"]),
    RiskRule("insurance_bundling", ["insurance bundled", "mandatory insurance"])
  ]

  const Recommendation: string := "Clarify terms and provide opt-out."
  const HighRisk: string := "High risk due to aggressive clauses."
  const LowRisk: string := "Low risk detected."

  datatype RiskClause = RiskClause(text: string, kind: string, recommendation: string)

  datatype LoanGuardResponse = LoanGuardResponse(riskScore: int, riskyClauses: seq<RiskClause>, summary: string)

  /** The rule fires on the line: one of its keywords is a substring of the lowercased
      line. */
  predicate Fires(r: RiskRule, line: string) {
    ContainsAnyText(Lower(line), r.keywords)
  }

  /** Which rules fire on a line, position by position. */
  function Flags(line: string, rules: seq<RiskRule>): (flags: seq<bool>)
    ensures |flags| == |rules|
  {
    seq(|rules|, j requires 0 <= j < |rules| => Fires(rules[j], line))
  }

  /** What the rule loop needs of a line: its stripped text and which rules fire. */
  datatype ScannedLine = ScannedLine(text: string, flags: seq<bool>)

  function Scans(lines: seq<string>, rules: seq<RiskRule>): (scans: seq<ScannedLine>)
    ensures |scans| == |lines|
  {
    seq(|lines|, k requires 0 <= k < |lines| => ScannedLine(Strip(lines[k]), Flags(lines[k], rules)))
  }

  /** The clauses the inner loop appends for a line whose stripped text is `text`, given
      which of the rules fire. */
  function LineClauses(text: string, rules: seq<RiskRule>, flags: seq<bool>): seq<RiskClause> {
    if rules == [] then []
    else
      var n := |rules|;
      LineClauses(text, rules[..n - 1], flags)
      + (if n - 1 < |flags| && flags[n - 1] then [RiskClause(text, rules[n - 1].name, Recommendation)] else [])
  }

  /** The clauses of all scanned lines, in line order. */
  function ClausesOf(scans: seq<ScannedLine>, rules: seq<RiskRule>): seq<RiskClause> {
    if scans == [] then []
    else
      var s := scans[|scans| - 1];
      ClausesOf(scans[..|scans| - 1], rules) + LineClauses(s.text, rules, s.flags)
  }

  /** `min(100, risk_score)`. */
  function Bounded(riskScore: int): int {
    if 100 < riskScore then 100 else riskScore
  }

  /** The response `analyze_text(text)` builds. */
  function Analysis(text: string): LoanGuardResponse {
    var cs := ClausesOf(Scans(SplitLines(text), RiskRules), RiskRules);
    LoanGuardResponse(Bounded(20 + 15 * |cs|), cs, if cs != [] then HighRisk else LowRisk)
  }

  /** `analyze_text(text)`. */
  method AnalyzeText(text: string) returns (r: LoanGuardResponse)
    ensures r == Analysis(text)
  {
    var lines := SplitLines(text);
    var riskyClauses, riskScore := ScanLines(lines, RiskRules);
    var boundedRisk := if 100 < riskScore then 100 else riskScore;
    var summary := if riskyClauses != [] then HighRisk else LowRisk;
    r := LoanGuardResponse(boundedRisk, riskyClauses, summary);
  }

  /** The outer loop of `analyze_text`: the clauses of every line in order, and the score
      that starts at 20 and grows by 15 per clause. */
  method ScanLines(lines: seq<string>, rules: seq<RiskRule>) returns (riskyClauses: seq<RiskClause>, riskScore: int)
    ensures riskyClauses == ClausesOf(Scans(lines, rules), rules)
    ensures riskScore == 20 + 15 * |riskyClauses|
  {
    ghost var scans := Scans(lines, rules);
    riskyClauses, riskScore := [], 20;
    var i := 0;
    while i < |lines|
      invariant 0 <= i <= |lines|
      invariant riskyClauses == ClausesOf(scans[..i], rules)
      invariant riskScore == 20 + 15 * |riskyClauses|
    {
      var line := lines[i];
      var stripped := Strip(line);
      riskyClauses, riskScore := ScanLine(stripped, line, rules, riskyClauses, riskScore);
      assert scans[..i + 1][..i] == scans[..i];
      assert scans[i] == ScannedLine(stripped, Flags(line, rules));
      i := i + 1;
    }
    assert scans[..i] == scans;
  }

  /** The inner loop of `analyze_text` for one line, whose stripped text is `text`: a
      clause appended and 15 added to the score per firing rule. */
  method ScanLine(text: string, line: string, rules: seq<RiskRule>, clauses: seq<RiskClause>, score: int)
    returns (clauses': seq<RiskClause>, score': int)
    ensures clauses' == clauses + LineClauses(text, rules, Flags(line, rules))
    ensures score' == score + 15 * |LineClauses(text, rules, Flags(line, rules))|
  {
    clauses', score' := clauses, score;
    var lowerLine := Lower(line);
    var j := 0;
    while j < |rules|
      invariant 0 <= j <= |rules|
      invariant clauses' == clauses + LineClauses(text, rules[..j], Flags(line, rules))
      invariant score' == score + 15 * |LineClauses(text, rules[..j], Flags(line, rules))|
    {
      var rule := rules[j];
      if ContainsAnyText(lowerLine, rule.keywords) {
        clauses' := clauses' + [RiskClause(text, rule.name, Recommendation)];
        score' := score' + 15;
      }
      assert rules[..j + 1][..j] == rules[..j];
      j := j + 1;
    }
    assert rules[..j] == rules;
  }

  // ------------------------------------------------------------ which rules fire

  /** One line yields one clause per firing rule, in rule-table order, each carrying the
      stripped line, the rule's name and the fixed recommendation. */
  lemma {:induction false} LineClausesFiring(text: string, rules: seq<RiskRule>, flags: seq<bool>)
    requires |flags| == |rules|
    ensures var f, cs := Positions(flags), LineClauses(text, rules, flags);
            |cs| == |f| && forall a :: 0 <= a < |f| ==> f[a] < |rules| && cs[a] == RiskClause(text, rules[f[a]].name, Recommendation)
  {
    if rules != [] {
      var n := |rules|;
      var init := flags[..n - 1];
      LineClausesFiring(text, rules[..n - 1], init);
      PositionsSpec(init);
      LineClausesFlags(text, rules[..n - 1], init, flags);
      var f, cs := Positions(flags), LineClauses(text, rules, flags);
      var f', cs' := Positions(init), LineClauses(text, rules[..n - 1], init);
      assert f == f' + (if flags[n - 1] then [n - 1] else []);
      assert cs == cs' + (if flags[n - 1] then [RiskClause(text, rules[n - 1].name, Recommendation)] else []);
      forall a | 0 <= a < |f| ensures f[a] < |rules| && cs[a] == RiskClause(text, rules[f[a]].name, Recommendation) {
        if a < |f'| {
          assert f[a] == f'[a] && cs[a] == cs'[a];
        }
      }
    }
  }

  /** Only the flags of the rules scanned matter. */
  lemma {:induction false} LineClausesFlags(text: string, rules: seq<RiskRule>, flags: seq<bool>, more: seq<bool>)
    requires |flags| == |rules| <= |more| && flags == more[..|rules|]
    ensures LineClauses(text, rules, flags) == LineClauses(text, rules, more)
  {
    if rules != [] {
      LineClausesFlags(text, rules[..|rules| - 1], flags[..|rules| - 1], more);
      LineClausesFlags(text, rules[..|rules| - 1], flags[..|rules| - 1], flags);
    }
  }

  /** Scanned lines whose flags cover the whole table. */
  predicate Complete(scans: seq<ScannedLine>, rules: seq<RiskRule>) {
    forall k :: 0 <= k < |scans| ==> |scans[k].flags| == |rules|
  }

  /** Every clause comes from a line and a rule that fires on it. */
  lemma {:induction false} ClausesSound(scans: seq<ScannedLine>, rules: seq<RiskRule>)
    requires Complete(scans, rules)
    ensures forall c :: c in ClausesOf(scans, rules) ==>
              exists k, j :: 0 <= k < |scans| && 0 <= j < |rules| && scans[k].flags[j]
                             && c == RiskClause(scans[k].text, rules[j].name, Recommendation)
  {
    if scans != [] {
      var n := |scans|;
      var init, s := scans[..n - 1], scans[n - 1];
      assert Complete(init, rules);
      ClausesSound(init, rules);
      var before, last := ClausesOf(init, rules), LineClauses(s.text, rules, s.flags);
      assert ClausesOf(scans, rules) == before + last;
      forall c | c in before + last
        ensures exists k, j :: 0 <= k < n && 0 <= j < |rules| && scans[k].flags[j]
                               && c == RiskClause(scans[k].text, rules[j].name, Recommendation)
      {
        if c in before {
          var k, j :| 0 <= k < n - 1 && 0 <= j < |rules| && init[k].flags[j]
                      && c == RiskClause(init[k].text, rules[j].name, Recommendation);
          assert init[k] == scans[k];
        } else {
          var j := LineClauseOrigin(s.text, rules, s.flags, c);
          assert scans[n - 1] == s;
        }
      }
    }
  }

  /** A clause of one line comes from a rule that fires on it. */
  lemma {:induction false} LineClauseOrigin(text: string, rules: seq<RiskRule>, flags: seq<bool>, c: RiskClause) returns (j: nat)
    requires |flags| == |rules| && c in LineClauses(text, rules, flags)
    ensures j < |rules| && flags[j] && c == RiskClause(text, rules[j].name, Recommendation)
  {
    LineClausesFiring(text, rules, flags);
    PositionsSpec(flags);
    var f := Positions(flags);
    var a :| 0 <= a < |f| && LineClauses(text, rules, flags)[a] == c;
    j := f[a];
  }

  /** Every line and rule that fires on it yield a clause. */
  lemma {:induction false} ClausesComplete(scans: seq<ScannedLine>, rules: seq<RiskRule>)
    requires Complete(scans, rules)
    ensures forall k, j :: 0 <= k < |scans| && 0 <= j < |rules| && scans[k].flags[j] ==>
              RiskClause(scans[k].text, rules[j].name, Recommendation) in ClausesOf(scans, rules)
  {
    if scans != [] {
      var n := |scans|;
      var init, s := scans[..n - 1], scans[n - 1];
      assert Complete(init, rules);
      ClausesComplete(init, rules);
      var before, last := ClausesOf(init, rules), LineClauses(s.text, rules, s.flags);
      assert ClausesOf(scans, rules) == before + last;
      forall k, j | 0 <= k < n && 0 <= j < |rules| && scans[k].flags[j]
        ensures RiskClause(scans[k].text, rules[j].name, Recommendation) in before + last
      {
        if k < n - 1 {
          assert init[k] == scans[k];
        } else {
          LineClauseFound(s.text, rules, s.flags, j);
        }
      }
    }
  }

  /** A rule that fires on a line yields its clause for that line. */
  lemma {:induction false} LineClauseFound(text: string, rules: seq<RiskRule>, flags: seq<bool>, j: nat)
    requires |flags| == |rules| && j < |rules| && flags[j]
    ensures RiskClause(text, rules[j].name, Recommendation) in LineClauses(text, rules, flags)
  {
    LineClausesFiring(text, rules, flags);
    PositionsSpec(flags);
    var f := Positions(flags);
    var a :| 0 <= a < |f| && f[a] == j;
    assert LineClauses(text, rules, flags)[a] == RiskClause(text, rules[j].name, Recommendation);
  }

  /** The number of (line, rule) pairs that fire. */
  function FiredPairs(scans: seq<ScannedLine>): nat {
    if scans == [] then 0
    else FiredPairs(scans[..|scans| - 1]) + |Positions(scans[|scans| - 1].flags)|
  }

  /** There is one clause per firing (line, rule) pair. */
  lemma {:induction false} ClausesCount(scans: seq<ScannedLine>, rules: seq<RiskRule>)
    requires Complete(scans, rules)
    ensures |ClausesOf(scans, rules)| == FiredPairs(scans)
  {
    if scans != [] {
      var n := |scans|;
      var init, s := scans[..n - 1], scans[n - 1];
      assert Complete(init, rules);
      ClausesCount(init, rules);
      LineClausesFiring(s.text, rules, s.flags);
    }
  }

  /** At most every rule fires on every line. */
  lemma {:induction false} FiredPairsBound(scans: seq<ScannedLine>, m: nat)
    requires forall k :: 0 <= k < |scans| ==> |scans[k].flags| == m
    ensures FiredPairs(scans) <= m * |scans|
  {
    if scans != [] {
      var n := |scans|;
      FiredPairsBound(scans[..n - 1], m);
      assert m * (n - 1) + m == m * n;
    }
  }

  // ------------------------------------------------------------ what `analyze_text` promises

  lemma {:induction false} ScansComplete(lines: seq<string>, rules: seq<RiskRule>)
    ensures Complete(Scans(lines, rules), rules)
  {
  }

  /** Over the lines themselves: every clause is the stripped text of a line, named after
      a rule one of whose keywords occurs in that line, case-insensitively, with the fixed
      recommendation. */
  lemma {:induction false} LinesSound(lines: seq<string>, rules: seq<RiskRule>)
    ensures forall c :: c in ClausesOf(Scans(lines, rules), rules) ==>
              exists k, j :: 0 <= k < |lines| && 0 <= j < |rules| && Fires(rules[j], lines[k])
                             && c == RiskClause(Strip(lines[k]), rules[j].name, Recommendation)
  {
    var scans := Scans(lines, rules);
    ScansComplete(lines, rules);
    forall c | c in ClausesOf(scans, rules)
      ensures exists k, j :: 0 <= k < |lines| && 0 <= j < |rules| && Fires(rules[j], lines[k])
                             && c == RiskClause(Strip(lines[k]), rules[j].name, Recommendation)
    {
      var k, j := ClauseOrigin(scans, rules, c);
      ScanAt(lines, rules, k, j);
      SoundWitness(lines, rules, c, k, j);
    }
  }

  /** The line and the rule a clause comes from. */
  lemma {:induction false} ClauseOrigin(scans: seq<ScannedLine>, rules: seq<RiskRule>, c: RiskClause) returns (k: nat, j: nat)
    requires Complete(scans, rules) && c in ClausesOf(scans, rules)
    ensures k < |scans| && j < |rules| && scans[k].flags[j]
            && c == RiskClause(scans[k].text, rules[j].name, Recommendation)
  {
    ClausesSound(scans, rules);
    k, j :| 0 <= k < |scans| && 0 <= j < |rules| && scans[k].flags[j]
            && c == RiskClause(scans[k].text, rules[j].name, Recommendation);
  }

  /** The scan of line `k` holds its stripped text and, at `j`, whether rule `j` fires. */
  lemma {:induction false} ScanAt(lines: seq<string>, rules: seq<RiskRule>, k: nat, j: nat)
    requires k < |lines| && j < |rules|
    ensures var sc := Scans(lines, rules)[k];
            sc.text == Strip(lines[k]) && |sc.flags| == |rules| && sc.flags[j] == Fires(rules[j], lines[k])
  {
  }

  lemma {:induction false} SoundWitness(lines: seq<string>, rules: seq<RiskRule>, c: RiskClause, k: nat, j: nat)
    requires k < |lines| && j < |rules| && Fires(rules[j], lines[k])
    requires c == RiskClause(Strip(lines[k]), rules[j].name, Recommendation)
    ensures exists k', j' :: 0 <= k' < |lines| && 0 <= j' < |rules| && Fires(rules[j'], lines[k'])
                             && c == RiskClause(Strip(lines[k']), rules[j'].name, Recommendation)
  {
  }

  /** Over the lines themselves: each line and each rule with a keyword in that line,
      case-insensitively, yield a clause. */
  lemma {:induction false} LinesComplete(lines: seq<string>, rules: seq<RiskRule>)
    ensures forall k, j :: 0 <= k < |lines| && 0 <= j < |rules| && Fires(rules[j], lines[k]) ==>
              RiskClause(Strip(lines[k]), rules[j].name, Recommendation) in ClausesOf(Scans(lines, rules), rules)
  {
    var scans := Scans(lines, rules);
    ScansComplete(lines, rules);
    ClausesComplete(scans, rules);
    forall k, j | 0 <= k < |lines| && 0 <= j < |rules| && Fires(rules[j], lines[k])
      ensures RiskClause(Strip(lines[k]), rules[j].name, Recommendation) in ClausesOf(scans, rules)
    {
      assert scans[k] == ScannedLine(Strip(lines[k]), Flags(lines[k], rules));
      assert scans[k].flags[j];
    }
  }

  /** The clauses `cs` are exactly the (line, rule) pairs that fire: each is the
      stripped text of a line with a rule that fires on it, and each such pair is among
      them. */
  ghost predicate ReportsExactly(lines: seq<string>, rules: seq<RiskRule>, cs: seq<RiskClause>) {
    (forall c :: c in cs ==>
       exists k, j :: 0 <= k < |lines| && 0 <= j < |rules| && Fires(rules[j], lines[k])
                      && c == RiskClause(Strip(lines[k]), rules[j].name, Recommendation))
    && (forall k, j :: 0 <= k < |lines| && 0 <= j < |rules| && Fires(rules[j], lines[k]) ==>
         RiskClause(Strip(lines[k]), rules[j].name, Recommendation) in cs)
  }

  /** The risky clauses of `analyze_text` are exactly the (line, rule) pairs that fire. */
  lemma {:induction false} AnalysisClauses(text: string)
    ensures ReportsExactly(SplitLines(text), RiskRules, Analysis(text).riskyClauses)
  {
    var lines := SplitLines(text);
    assert Analysis(text).riskyClauses == ClausesOf(Scans(lines, RiskRules), RiskRules);
    LinesExact(lines, RiskRules);
  }

  lemma {:induction false} LinesExact(lines: seq<string>, rules: seq<RiskRule>)
    ensures ReportsExactly(lines, rules, ClausesOf(Scans(lines, rules), rules))
  {
    LinesSound(lines, rules);
    LinesComplete(lines, rules);
  }

  /** The risk score is `min(100, 20 + 15 * n)` for the number n of firing (line, rule)
      pairs, in 20 .. 100: 20 exactly when no clause is found, 100 from six clauses on;
      the summary reports low risk exactly when no clause is found. */
  lemma {:induction false} ScoreAndSummary(text: string)
    ensures var r := Analysis(text);
            var n := FiredPairs(Scans(SplitLines(text), RiskRules));
            r.riskScore == Bounded(20 + 15 * n)
            && |r.riskyClauses| <= 4 * |SplitLines(text)|
            && 20 <= r.riskScore <= 100
            && (r.riskScore == 20 <==> r.riskyClauses == [])
            && (r.riskScore == 100 <==> |r.riskyClauses| >= 6)
            && (r.summary == LowRisk <==> r.riskyClauses == [])
  {
    ScansComplete(SplitLines(text), RiskRules);
    ClausesCount(Scans(SplitLines(text), RiskRules), RiskRules);
    FiredPairsBound(Scans(SplitLines(text), RiskRules), 4);
  }
}
