/** Properties of the reasons list the loan prediction handler produces: it is
    never empty, the fallback reason stands exactly for "no rule fired", the
    approval reason comes first exactly for approved applications, each rule's
    reason is present exactly when its condition holds, and the rule reasons
    keep the fixed rule order. */
module ExplanationFacts {
  import opened LoanAssessment

  /** Rules listed strictly in the order the handler evaluates them (so each at
      most once). */
  ghost predicate InRuleOrder(rules: seq<Rule>)
  {
    forall i, j :: 0 <= i < j < |rules| ==> Rank(rules[i]) < Rank(rules[j])
  }

  /** Filtering keeps the rule order. */
  lemma {:induction false} FiredRulesInOrder(rules: seq<Rule>, features: seq<real>)
    requires WellFormed(features) && InRuleOrder(rules)
    ensures InRuleOrder(FiredRules(rules, features))
  {
    if rules != [] {
      var n := |rules| - 1;
      var init := FiredRules(rules[..n], features);
      FiredRulesInOrder(rules[..n], features);
      forall i | 0 <= i < |init|
        ensures Rank(init[i]) < Rank(rules[n])
      {
        assert init[i] in rules[..n];
        var k :| 0 <= k < n && rules[..n][k] == init[i];
        assert rules[k] == init[i];
      }
    }
  }

  /** No rule fires exactly when the filtered rule list is empty. */
  lemma NoneFiredIff(features: seq<real>)
    requires WellFormed(features)
    ensures FiredRules(RuleOrder, features) == [] <==> forall r :: !Fires(r, features)
  {
    if FiredRules(RuleOrder, features) == [] {
      forall r ensures !Fires(r, features) {
        assert RuleOrder[Rank(r)] == r;
      }
    } else {
      var fired := FiredRules(RuleOrder, features);
      assert fired[0] in fired && Fires(fired[0], features);
    }
  }

  /** The list has between one and five entries: the optional approval reason
      plus either the fallback or at most one reason per rule. */
  lemma ReasonsNeverEmpty(features: seq<real>, prediction: int)
    requires WellFormed(features)
    ensures 1 <= |Explanation(features, prediction)| <= 5
  {
  }

  /** For an approved application the approval reason is the first entry; the
      approval reason appears nowhere for any other classifier label. */
  lemma ApprovalReasonFirst(features: seq<real>, prediction: int)
    requires WellFormed(features)
    ensures prediction == 1 ==> Explanation(features, prediction)[0] == ApprovalReason
    ensures ApprovalReason in Explanation(features, prediction) <==> prediction == 1
  {
  }

  /** The fallback reason appears exactly when none of the four rules fires. */
  lemma FallbackExactlyWhenNoRuleFires(features: seq<real>, prediction: int)
    requires WellFormed(features)
    ensures FallbackReason in Explanation(features, prediction) <==> forall r :: !Fires(r, features)
  {
    NoneFiredIff(features);
    assert FallbackReason !in Messages(FiredRules(RuleOrder, features));
  }

  /** A rule's reason appears exactly when the rule fires. */
  lemma RuleReasonExactlyWhenFires(r: Rule, features: seq<real>, prediction: int)
    requires WellFormed(features)
    ensures Message(r) in Explanation(features, prediction) <==> Fires(r, features)
  {
    var fired := FiredRules(RuleOrder, features);
    var ms := Messages(fired);
    if Fires(r, features) {
      assert RuleOrder[Rank(r)] == r;
      assert r in fired;
      var i :| 0 <= i < |fired| && fired[i] == r;
      assert ms[i] == Message(r);
    }
    if Message(r) in ms {
      var i :| 0 <= i < |ms| && ms[i] == Message(r);
      MessageInjective(fired[i], r);
    }
  }

  /** The four rules in terms of the raw features. */
  lemma RuleReasonConditions(features: seq<real>, prediction: int)
    requires WellFormed(features)
    ensures var e := Explanation(features, prediction);
      && (PoorCreditReason in e <==> features[CreditHistory] == 0.0)
      && (HighRatioReason in e <==>
            features[ApplicantIncome] + features[CoapplicantIncome] > 0.0 &&
            features[LoanAmount] / (features[ApplicantIncome] + features[CoapplicantIncome]) > 0.4)
      && (DependentsReason in e <==> features[Dependents] >= 3.0)
      && (SelfEmployedReason in e <==> features[SelfEmployed] == 1.0)
  {
    RuleReasonExactlyWhenFires(PoorCredit, features, prediction);
    RuleReasonExactlyWhenFires(HighLoanToIncome, features, prediction);
    RuleReasonExactlyWhenFires(ManyDependents, features, prediction);
    RuleReasonExactlyWhenFires(SelfEmployment, features, prediction);
  }

  /** Without positive total income the loan-to-income reason never appears,
      whatever the loan amount. */
  lemma NoRatioReasonWithoutIncome(features: seq<real>, prediction: int)
    requires WellFormed(features)
    requires features[ApplicantIncome] + features[CoapplicantIncome] <= 0.0
    ensures HighRatioReason !in Explanation(features, prediction)
  {
    RuleReasonExactlyWhenFires(HighLoanToIncome, features, prediction);
  }

  /** After the optional approval reason, the list is either the fallback alone
      or the reasons of the fired rules, one per rule, in the fixed order
      credit, loan-to-income, dependents, self-employment. */
  lemma ReasonsInRuleOrder(features: seq<real>, prediction: int)
    requires WellFormed(features)
    ensures var e := Explanation(features, prediction);
      var body := if prediction == 1 then e[1..] else e;
      || body == [FallbackReason]
      || exists fired: seq<Rule> ::
           && fired != []
           && InRuleOrder(fired)
           && (forall r :: r in fired <==> Fires(r, features))
           && body == Messages(fired)
  {
    var fired := FiredRules(RuleOrder, features);
    assert InRuleOrder(RuleOrder);
    FiredRulesInOrder(RuleOrder, features);
    forall r ensures r in fired <==> Fires(r, features) {
      assert RuleOrder[Rank(r)] == r;
    }
    var e := Explanation(features, prediction);
    var body := if fired == [] then [FallbackReason] else Messages(fired);
    assert e == if prediction == 1 then [ApprovalReason] + body else body;
    if prediction == 1 {
      assert e[1..] == body;
    }
  }

  // ---------------------------------------------------------------------------
  // Worked scenarios
  // ---------------------------------------------------------------------------

  /** Poor credit, income 5000 and loan 1000 (ratio 0.2), one dependent, not
      self-employed, rejected: only the credit reason. */
  lemma ScenarioPoorCreditLowRatio()
    ensures Explanation([1.0, 1.0, 1.0, 0.0, 0.0, 5000.0, 0.0, 1000.0, 360.0, 0.0, 2.0], 0)
         == [PoorCreditReason]
  {
    var f := [1.0, 1.0, 1.0, 0.0, 0.0, 5000.0, 0.0, 1000.0, 360.0, 0.0, 2.0];
    FiredRulesOfRuleOrder(f);
    assert FiredRules(RuleOrder, f) == [PoorCredit];
  }

  /** No income at all and a loan of 500: no loan-to-income reason, and with
      nothing else firing the fallback stands alone. */
  lemma ScenarioZeroIncome()
    ensures Explanation([1.0, 1.0, 0.0, 0.0, 0.0, 0.0, 0.0, 500.0, 360.0, 1.0, 2.0], 0)
         == [FallbackReason]
  {
    var f := [1.0, 1.0, 0.0, 0.0, 0.0, 0.0, 0.0, 500.0, 360.0, 1.0, 2.0];
    NoneFiredIff(f);
    assert forall r :: !Fires(r, f);
  }

  /** Three dependents and otherwise neutral features, rejected: only the
      dependents reason. */
  lemma ScenarioManyDependents()
    ensures Explanation([1.0, 1.0, 3.0, 0.0, 0.0, 5000.0, 0.0, 100.0, 360.0, 1.0, 2.0], 0)
         == [DependentsReason]
  {
    var f := [1.0, 1.0, 3.0, 0.0, 0.0, 5000.0, 0.0, 100.0, 360.0, 1.0, 2.0];
    FiredRulesOfRuleOrder(f);
    assert FiredRules(RuleOrder, f) == [ManyDependents];
  }

  /** Approved with good credit and nothing else firing: the approval reason,
      then the fallback. */
  lemma ScenarioApprovedClean()
    ensures Explanation([1.0, 1.0, 0.0, 0.0, 0.0, 5000.0, 0.0, 100.0, 360.0, 1.0, 2.0], 1)
         == [ApprovalReason, FallbackReason]
  {
    var f := [1.0, 1.0, 0.0, 0.0, 0.0, 5000.0, 0.0, 100.0, 360.0, 1.0, 2.0];
    NoneFiredIff(f);
    assert forall r :: !Fires(r, f);
  }
}
