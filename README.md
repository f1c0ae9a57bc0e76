# Loan assessment: risk tier, decision and explanation

A Dafny model of the decision-and-explanation step of the loan prediction web
application (the `predict` handler in `app.py`). Given the eleven applicant
features in the fixed form order, the classifier's label and its approval
probability (in percent), the handler produces:

- a **risk tier**: `LOW RISK` at 70 and above, `MEDIUM RISK` from 40 up to 70,
  `HIGH RISK` below 40;
- a **decision label**: `Loan Approved` exactly when the label is 1, otherwise
  `Loan Rejected`;
- an ordered list of **reasons**, built by appending, in this order, one reason
  for each of four threshold rules that fires (credit history 0; loan amount
  above 0.4 of a positive total income; three or more dependents;
  self-employed), then a fallback reason when no rule fired, then inserting an
  approval reason at the front when the label is 1.

`loan_assessment.dfy` (module `LoanAssessment`) holds the feature layout, the
tier and label functions, the rules as a `Rule` datatype in their fixed order
(`RuleOrder`), the reference definition `Explanation` (filter the rules in
order, map them to their reasons, add fallback and approval reason), and the
method `BuildReasons`, which grows a sequence step by step as the handler grows
its list and is proved to return `Explanation`. `Assess` puts the four fields of
the report together. `explanation_facts.dfy` (module `ExplanationFacts`) proves
what the list guarantees.

Features are `seq<real>` of length 11; the label is an `int`; the probability is
a `real` input.

## Model

| member | source | states |
|---|---|---|
| `LoanAssessment.FeaturePositions` | app.py:17-29 | the positions the rules read (2, 4, 5, 6, 7, 9) name Dependents, Self_Employed, ApplicantIncome, CoapplicantIncome, LoanAmount and Credit_History in the eleven-field form order |
| `LoanAssessment.RiskTier` | app.py:47-52 | every probability gets exactly one of the three tiers: LOW iff p >= 70, MEDIUM iff 40 <= p < 70, HIGH iff p < 40 |
| `LoanAssessment.Decision` | app.py:54 | the decision is one of two labels, "Loan Approved" iff the classifier label is 1, "Loan Rejected" for every other label |
| `LoanAssessment.TotalIncome` | app.py:62 | the total income is the applicant income plus the co-applicant income (positions 5 and 6) |
| `LoanAssessment.Fires` | app.py:59-71 | the four rule conditions: credit history == 0; total income > 0 and loan amount / total income > 0.4, dependents >= 3; self-employed == 1; its contract: the loan-to-income rule fires only when total income is positive, so the ratio is never computed for zero income |
| `LoanAssessment.Message` | app.py:59-75 | no rule's reason is the fallback reason or the approval reason |
| `LoanAssessment.MessageInjective` | app.py:59-72 | the four rules contribute four distinct reasons |
| `LoanAssessment.FiredRules` | app.py:59-72 | the fired rules are exactly the listed rules whose condition holds, and there are no more of them than rules |
| `LoanAssessment.Explanation` | app.py:57-78 | the reference reasons list, in filter form: the rules of `RuleOrder` that fire, mapped to their reasons, or the fallback reason when none fires, with the approval reason in front for label 1; `BuildReasons` is proved equal to it and every lemma of `ExplanationFacts` is about it; its contract: the fallback reason is present exactly when no rule fired |
| `LoanAssessment.BuildReasons` | app.py:57-78 | the step-by-step list (append per firing rule, fallback when empty, approval reason inserted at the front) equals the reference `Explanation` |
| `LoanAssessment.FiredRulesSnoc` | app.py:59-72 | evaluating one more rule appends that rule exactly when it fires |
| `LoanAssessment.FiredRulesOfRuleOrder` | app.py:59-72 | filtering the fixed rule order yields, in order, the credit rule if it fires, then the loan-to-income rule if it fires, then the dependents rule, then the self-employment rule |
| `LoanAssessment.Assess` | app.py:47-86 | the report holds the label from `Decision`, the probability unchanged, the tier from `RiskTier` and the reasons from `Explanation` |
| `ExplanationFacts.FiredRulesInOrder` | app.py:59-72 | filtering keeps the rules in their evaluation order, each at most once |
| `ExplanationFacts.NoneFiredIff` | app.py:74-75 | no rule fired exactly when no rule's condition holds |
| `ExplanationFacts.ReasonsNeverEmpty` | app.py:57-78 | the reasons list has at least one and at most five entries, for every feature vector and label |
| `ExplanationFacts.ApprovalReasonFirst` | app.py:77-78 | for label 1 the first reason is the approval reason; the approval reason is present iff the label is 1 |
| `ExplanationFacts.FallbackExactlyWhenNoRuleFires` | app.py:59-75 | the fallback reason is present iff none of the four rules fires |
| `ExplanationFacts.RuleReasonExactlyWhenFires` | app.py:59-72 | each rule's reason is present iff that rule fires |
| `ExplanationFacts.RuleReasonConditions` | app.py:59-72 | the four reasons are present iff, respectively, credit history == 0; total income > 0 and loan / total income > 0.4; dependents >= 3; self-employed == 1 |
| `ExplanationFacts.NoRatioReasonWithoutIncome` | app.py:62-66 | when applicant plus co-applicant income is not positive, the loan-to-income reason is absent whatever the loan amount |
| `ExplanationFacts.ReasonsInRuleOrder` | app.py:57-78 | after the optional approval reason, the list is the fallback alone or the reasons of exactly the firing rules, in the order credit, loan-to-income, dependents, self-employment |
| `ExplanationFacts.ScenarioPoorCreditLowRatio` | app.py:59-66 | credit history 0 with income 5000 and loan 1000 (ratio 0.2), rejected: only the credit reason |
| `ExplanationFacts.ScenarioZeroIncome` | app.py:62-75 | zero income with a loan of 500 and nothing else firing: only the fallback reason |
| `ExplanationFacts.ScenarioManyDependents` | app.py:68-69 | three dependents, otherwise neutral, rejected: only the dependents reason |
| `ExplanationFacts.ScenarioApprovedClean` | app.py:74-78 | approved, good credit, nothing firing: the approval reason then the fallback reason |

## Left out

- Flask routing, templates and the `home` view (app.py:32-34, 91-99): web glue.
- Form parsing with `float(...)` (app.py:40) and the catch-all error view (app.py:101-109): I/O and library error behaviour; the model starts from an already parsed vector of eleven reals. The second `except` block (app.py:111-118) can never run.
- Loading the classifier, `predict` and `decision_function` (app.py:15, 41-44): an opaque pre-trained SVM; its label is an input.
- The logistic transform `expit` and the scaling by 100 (app.py:45): floating-point library code; the probability is an input, and the tiering is total, so no range is required of it.
- `generate_pdf` (app.py:120-145): a PDF layout library call that uses the wall clock and overwrites a fixed file.
- The two-decimal probability formatting and the emoji suffixes of the tier and decision labels (app.py:48-54, 83, 94): the model uses plain label strings.
- Floating point: features, the total income, the loan-to-income ratio and the 0.4 threshold are exact reals, so the model agrees with the float program only where float arithmetic is exact enough. Two known disagreements: (1) a ratio within rounding error of 0.4 can compare differently; (2) when applicant plus co-applicant income exceeds the largest double, the float sum at app.py:62 overflows to infinity, the ratio becomes 0 and the program gives no loan-to-income reason, while the model computes the real ratio (for example, 1e308 for both incomes and the loan gives 0.5, and the model gives the reason).
- Non-finite features: `float()` at app.py:40 also accepts "nan", "inf" and out-of-range values such as "1e400", which `seq<real>` cannot represent; the model assumes every feature is a finite number, i.e. that such input never reaches the rules (in the program the classifier's input validation would then have to reject it).
