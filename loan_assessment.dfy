/** The decision-and-explanation step of the loan prediction handler.

    The handler receives eleven numeric applicant features, asks a pre-trained
    classifier for a label (1 = approved) and an approval probability in percent,
    and then derives:
    - a risk tier from the probability,
    - a decision label from the classifier's label,
    - an ordered, never empty list of human-readable reasons from four fixed
      threshold rules over the raw features.

    The classifier and the sigmoid are outside this model: the label and the
    probability are inputs. Python floats are modelled as exact reals.
 */
module LoanAssessment {

  // ---------------------------------------------------------------------------
  // Features
  // ---------------------------------------------------------------------------

  /** The order in which the handler reads the form fields; the classifier was
      trained on this order and the rules below index into it. */
  const FeatureOrder: seq<string> := [
    "Gender", "Married", "Dependents", "Education", "Self_Employed",
    "ApplicantIncome", "CoapplicantIncome", "LoanAmount", "Loan_Amount_Term",
    "Credit_History", "Property_Area"
  ]

  const FeatureCount: nat := 11

  // Positions of the features the explanation rules look at.
  const Dependents: nat := 2
  const SelfEmployed: nat := 4
  const ApplicantIncome: nat := 5
  const CoapplicantIncome: nat := 6
  const LoanAmount: nat := 7
  const CreditHistory: nat := 9

  /** A feature vector as the handler builds it: one real per name in FeatureOrder. */
  predicate WellFormed(features: seq<real>)
  {
    |features| == FeatureCount
  }

  /** Each position constant names the feature the handler reads at that position. */
  lemma FeaturePositions()
    ensures |FeatureOrder| == FeatureCount
    ensures FeatureOrder[Dependents] == "Dependents"
    ensures FeatureOrder[SelfEmployed] == "Self_Employed"
    ensures FeatureOrder[ApplicantIncome] == "ApplicantIncome"
    ensures FeatureOrder[CoapplicantIncome] == "CoapplicantIncome"
    ensures FeatureOrder[LoanAmount] == "LoanAmount"
    ensures FeatureOrder[CreditHistory] == "Credit_History"
  {
  }

  // ---------------------------------------------------------------------------
  // Risk tier and decision label
  // ---------------------------------------------------------------------------

  const LowRisk: string := "LOW RISK"
  const MediumRisk: string := "MEDIUM RISK"
  const HighRisk: string := "HIGH RISK"

  /** Buckets an approval probability (percent) into one of three tiers, with
      inclusive lower bounds 70 and 40. Every probability gets exactly one tier. */
  function RiskTier(probability: real): (tier: string)
    ensures tier in {LowRisk, MediumRisk, HighRisk}
    ensures tier == LowRisk <==> probability >= 70.0
    ensures tier == MediumRisk <==> 40.0 <= probability < 70.0
    ensures tier == HighRisk <==> probability < 40.0
  {
    if probability >= 70.0 then LowRisk
    else if probability >= 40.0 then MediumRisk
    else HighRisk
  }

  const Approved: string := "Loan Approved"
  const Rejected: string := "Loan Rejected"

  /** The decision label depends on the classifier's label alone: approved
      exactly when the label is 1, rejected for every other label. */
  function Decision(prediction: int): (verdict: string)
    ensures verdict in {Approved, Rejected}
    ensures verdict == Approved <==> prediction == 1
    ensures verdict == Rejected <==> prediction != 1
  {
    if prediction == 1 then Approved else Rejected
  }

  // ---------------------------------------------------------------------------
  // Explanation rules
  // ---------------------------------------------------------------------------

  const PoorCreditReason: string := "Poor credit history reduces approval chances."
  const HighRatioReason: string := "High loan amount compared to income."
  const DependentsReason: string := "Higher number of dependents increases financial burden."
  const SelfEmployedReason: string := "Self-employment can be considered higher risk."
  const FallbackReason: string := "Strong financial and credit profile."
  const ApprovalReason: string := "Good credit profile supports loan approval."

  /** Largest loan-to-income ratio that does not count against the applicant. */
  const MaxLoanToIncome: real := 0.4
  /** Smallest number of dependents that counts against the applicant. */
  const DependentsThreshold: real := 3.0

  /** The four threshold rules, in the order the handler evaluates them. */
  datatype Rule = PoorCredit | HighLoanToIncome | ManyDependents | SelfEmployment

  const RuleOrder: seq<Rule> := [PoorCredit, HighLoanToIncome, ManyDependents, SelfEmployment]

  /** Position of a rule in RuleOrder. */
  function Rank(r: Rule): (k: nat)
    ensures k < |RuleOrder| && RuleOrder[k] == r
  {
    match r
    case PoorCredit => 0
    case HighLoanToIncome => 1
    case ManyDependents => 2
    case SelfEmployment => 3
  }

  function TotalIncome(features: seq<real>): real
    requires WellFormed(features)
  {
    features[ApplicantIncome] + features[CoapplicantIncome]
  }

  /** Whether a rule fires on a feature vector. The loan-to-income ratio is only
      computed when the total income is positive, so it never divides by zero. */
  predicate Fires(r: Rule, features: seq<real>): (fires: bool)
    requires WellFormed(features)
    ensures fires && r == HighLoanToIncome ==> TotalIncome(features) > 0.0
  {
    match r
    case PoorCredit => features[CreditHistory] == 0.0
    case HighLoanToIncome =>
      TotalIncome(features) > 0.0 && features[LoanAmount] / TotalIncome(features) > MaxLoanToIncome
    case ManyDependents => features[Dependents] >= DependentsThreshold
    case SelfEmployment => features[SelfEmployed] == 1.0
  }

  /** The reason a rule contributes when it fires; no rule gives the fallback
      or the approval reason. */
  function Message(r: Rule): (reason: string)
    ensures reason != FallbackReason && reason != ApprovalReason
  {
    match r
    case PoorCredit => PoorCreditReason
    case HighLoanToIncome => HighRatioReason
    case ManyDependents => DependentsReason
    case SelfEmployment => SelfEmployedReason
  }

  function Messages(rules: seq<Rule>): (reasons: seq<string>)
    ensures |reasons| == |rules|
    ensures forall i :: 0 <= i < |rules| ==> reasons[i] == Message(rules[i])
  {
    seq(|rules|, i requires 0 <= i < |rules| => Message(rules[i]))
  }

  /** Distinct rules give distinct reasons. */
  lemma MessageInjective(r: Rule, r': Rule)
    ensures Message(r) == Message(r') <==> r == r'
  {
  }

  /** Appending one rule appends its reason. */
  lemma MessagesSnoc(rules: seq<Rule>, r: Rule)
    ensures Messages(rules + [r]) == Messages(rules) + [Message(r)]
  {
  }

  /** The rules among `rules` that fire, keeping their order. */
  function FiredRules(rules: seq<Rule>, features: seq<real>): (fired: seq<Rule>)
    requires WellFormed(features)
    ensures |fired| <= |rules|
    ensures forall r :: r in fired <==> r in rules && Fires(r, features)
  {
    if rules == [] then []
    else
      var init := FiredRules(rules[..|rules| - 1], features);
      var last := rules[|rules| - 1];
      assert rules == rules[..|rules| - 1] + [last];
      if Fires(last, features) then init + [last] else init
  }

  /** Extending the rule list by one rule extends the fired rules by that rule
      exactly when it fires. */
  lemma FiredRulesSnoc(rules: seq<Rule>, r: Rule, features: seq<real>)
    requires WellFormed(features)
    ensures FiredRules(rules + [r], features) == FiredRules(rules, features) + IfFires(r, features)
  {
    assert (rules + [r])[..|rules|] == rules;
  }

  /** The one-rule list `[r]` when `r` fires, otherwise the empty list. */
  function IfFires(r: Rule, features: seq<real>): seq<Rule>
    requires WellFormed(features)
  {
    if Fires(r, features) then [r] else []
  }

  /** Filtering the fixed rule order, spelled out rule by rule. */
  lemma FiredRulesOfRuleOrder(features: seq<real>)
    requires WellFormed(features)
    ensures FiredRules(RuleOrder, features)
         == IfFires(PoorCredit, features) + IfFires(HighLoanToIncome, features)
          + IfFires(ManyDependents, features) + IfFires(SelfEmployment, features)
  {
    var f := features;
    assert RuleOrder[..0] == [];
    assert RuleOrder[..1] == RuleOrder[..0] + [PoorCredit];
    FiredRulesSnoc(RuleOrder[..0], PoorCredit, f);
    assert RuleOrder[..2] == RuleOrder[..1] + [HighLoanToIncome];
    FiredRulesSnoc(RuleOrder[..1], HighLoanToIncome, f);
    assert RuleOrder[..3] == RuleOrder[..2] + [ManyDependents];
    FiredRulesSnoc(RuleOrder[..2], ManyDependents, f);
    assert RuleOrder == RuleOrder[..3] + [SelfEmployment];
    FiredRulesSnoc(RuleOrder[..3], SelfEmployment, f);
  }

  /** Reference definition of the reasons list: the approval reason first when
      the classifier approved, then the reasons of the rules that fire in rule
      order, or the fallback reason when none fires. */
  function Explanation(features: seq<real>, prediction: int): (reasons: seq<string>)
    requires WellFormed(features)
    ensures FallbackReason in reasons <==> FiredRules(RuleOrder, features) == []
  {
    var fired := FiredRules(RuleOrder, features);
    var body := if fired == [] then [FallbackReason] else Messages(fired);
    if prediction == 1 then [ApprovalReason] + body else body
  }

  /** Builds the reasons list step by step, as the handler does: one append per
      rule that fires, a fallback append when nothing was appended, and a final
      insertion at the front for an approved application. */
  method BuildReasons(features: seq<real>, prediction: int) returns (reasons: seq<string>)
    requires WellFormed(features)
    ensures reasons == Explanation(features, prediction)
  {
    // `fired` records which rules have appended so far, for the proof only.
    ghost var fired: seq<Rule> := [];
    reasons := [];

    if features[CreditHistory] == 0.0 {
      MessagesSnoc(fired, PoorCredit);
      reasons := reasons + [PoorCreditReason];
      fired := fired + [PoorCredit];
    }
    assert fired == IfFires(PoorCredit, features) && reasons == Messages(fired);

    var totalIncome := features[ApplicantIncome] + features[CoapplicantIncome];
    if totalIncome > 0.0 {
      var loanToIncomeRatio := features[LoanAmount] / totalIncome;
      if loanToIncomeRatio > MaxLoanToIncome {
        MessagesSnoc(fired, HighLoanToIncome);
        reasons := reasons + [HighRatioReason];
        fired := fired + [HighLoanToIncome];
      }
    }
    assert fired == IfFires(PoorCredit, features) + IfFires(HighLoanToIncome, features);
    assert reasons == Messages(fired);

    if features[Dependents] >= DependentsThreshold {
      MessagesSnoc(fired, ManyDependents);
      reasons := reasons + [DependentsReason];
      fired := fired + [ManyDependents];
    }
    assert fired == IfFires(PoorCredit, features) + IfFires(HighLoanToIncome, features)
                  + IfFires(ManyDependents, features);
    assert reasons == Messages(fired);

    if features[SelfEmployed] == 1.0 {
      MessagesSnoc(fired, SelfEmployment);
      reasons := reasons + [SelfEmployedReason];
      fired := fired + [SelfEmployment];
    }
    assert fired == IfFires(PoorCredit, features) + IfFires(HighLoanToIncome, features)
                  + IfFires(ManyDependents, features) + IfFires(SelfEmployment, features);
    assert reasons == Messages(fired);
    FiredRulesOfRuleOrder(features);

    if reasons == [] {
      reasons := reasons + [FallbackReason];
    }

    if prediction == 1 {
      reasons := [ApprovalReason] + reasons;
    }
  }

  // ---------------------------------------------------------------------------
  // The assessment as a whole
  // ---------------------------------------------------------------------------

  /** What the handler reports for one application (the report data). */
  datatype Assessment = Assessment(decision: string, probability: real, risk: string, reasons: seq<string>)

  /** The decision-and-explanation step of the handler, given the classifier's
      label and approval probability. */
  method Assess(features: seq<real>, prediction: int, probability: real) returns (a: Assessment)
    requires WellFormed(features)
    ensures a.decision == Decision(prediction) && (a.decision == Approved <==> prediction == 1)
    ensures a.probability == probability
    ensures a.risk == RiskTier(probability)
    ensures a.reasons == Explanation(features, prediction)
  {
    var risk := RiskTier(probability);
    var result := Decision(prediction);
    var reasons := BuildReasons(features, prediction);
    a := Assessment(result, probability, risk, reasons);
  }
}
