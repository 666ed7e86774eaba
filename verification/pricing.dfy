/**
 * The pricing page: the three plans in each locale, the calculator that
 * suggests a plan from the team size and estimates a monthly cost, and the
 * demo-request form.
 */
module Pricing {
  import opened LanguageContext

  /** A plan card; the feature list and call to action are display text and left out. */
  datatype Plan = Plan(name: string, price: string, highlight: bool)

  const PlansEn: seq<Plan> := [
    Plan("Free", "Free forever", false),
    Plan("Pro", "From $49/month", true),
    Plan("Enterprise", "Custom pricing", false)
  ]

  const PlansRu: seq<Plan> := [
    Plan("Free", "Бесплатно навсегда", false),
    Plan("Pro", "От $49/мес", true),
    Plan("Enterprise", "Индивидуальная цена", false)
  ]

  /** The plans of a locale; the content table has entries for the two supported languages only. */
  function Plans(language: Language): (plans: seq<Plan>)
    requires Supported(language)
    ensures |plans| == 3
  {
    if language == En then PlansEn else PlansRu
  }

  /** Both locales list the same plans under the same names, so pricing by name does not depend on the locale. */
  lemma PlanNamesLocaleIndependent()
    ensures forall k :: 0 <= k < 3 ==> Plans(En)[k].name == Plans(Ru)[k].name
    ensures Plans(En)[0].name == "Free" && Plans(En)[1].name == "Pro" && Plans(En)[2].name == "Enterprise"
  {
  }

  // ---------------------------------------------------------------------
  // The calculator
  // ---------------------------------------------------------------------

  /** Which plan the calculator suggests for a team size. */
  function SuggestedPlanIndex(teamSize: int): (k: nat)
    ensures k < 3
    ensures k == 0 <==> teamSize <= 5
    ensures k == 2 <==> teamSize > 20
  {
    if teamSize <= 5 then 0 else if teamSize <= 20 then 1 else 2
  }

  /** A bigger team never gets a smaller plan. */
  lemma SuggestedPlanMonotone(t1: int, t2: int)
    requires t1 <= t2
    ensures SuggestedPlanIndex(t1) <= SuggestedPlanIndex(t2)
  {
  }

  /** The plan card the calculator shows: the first up to 5 people, the second up to 20, the third beyond. */
  function CalculatorPlan(plans: seq<Plan>, teamSize: int): (plan: Plan)
    requires |plans| == 3
    ensures teamSize <= 5 ==> plan == plans[0]
    ensures 5 < teamSize <= 20 ==> plan == plans[1]
    ensures teamSize > 20 ==> plan == plans[2]
  {
    plans[SuggestedPlanIndex(teamSize)]
  }

  /** `Math.max(0, x)`: the larger of 0 and x. */
  function Max0(x: int): (r: nat)
    ensures r >= x
    ensures r == 0 || r == x
  {
    if x < 0 then 0 else x
  }

  /** The cost of the extras: seats beyond 10, canvases beyond 10, and AI minutes. */
  function AddOnCost(teamSize: int, boardCount: int, aiMinutes: int): real {
    (Max0(teamSize - 10) * 5 + Max0(boardCount - 10) * 2) as real + aiMinutes as real * 0.4
  }

  function BasePrice(planName: string): (r: real)
    ensures r == 0.0 <==> planName == "Free"
    ensures planName == "Pro" ==> r == 49.0
    ensures planName != "Free" && planName != "Pro" ==> r == 149.0
  {
    if planName == "Free" then 0.0 else if planName == "Pro" then 49.0 else 149.0
  }

  /** The monthly estimate: nothing for the free plan, otherwise the base price plus the extras. */
  function EstimatedCost(plan: Plan, teamSize: int, boardCount: int, aiMinutes: int): (c: real)
    ensures plan.name == "Free" ==> c == 0.0
    ensures aiMinutes >= 0 ==> c >= BasePrice(plan.name)
    ensures plan.name != "Free" ==> c == BasePrice(plan.name) + AddOnCost(teamSize, boardCount, aiMinutes)
  {
    if plan.name == "Free" then 0.0 else BasePrice(plan.name) + AddOnCost(teamSize, boardCount, aiMinutes)
  }

  /**
   * The rates of the extras: each seat beyond the tenth adds 5, each canvas
   * beyond the tenth adds 2, each AI minute adds 0.4, and seats or canvases
   * up to ten are free.
   */
  lemma AddOnRates(teamSize: int, boardCount: int, aiMinutes: int)
    ensures teamSize >= 10 ==> AddOnCost(teamSize + 1, boardCount, aiMinutes) == AddOnCost(teamSize, boardCount, aiMinutes) + 5.0
    ensures teamSize < 10 ==> AddOnCost(teamSize + 1, boardCount, aiMinutes) == AddOnCost(teamSize, boardCount, aiMinutes)
    ensures boardCount >= 10 ==> AddOnCost(teamSize, boardCount + 1, aiMinutes) == AddOnCost(teamSize, boardCount, aiMinutes) + 2.0
    ensures boardCount < 10 ==> AddOnCost(teamSize, boardCount + 1, aiMinutes) == AddOnCost(teamSize, boardCount, aiMinutes)
    ensures AddOnCost(teamSize, boardCount, aiMinutes + 1) == AddOnCost(teamSize, boardCount, aiMinutes) + 0.4
  {
  }

  /** Within the included ten seats and ten canvases and without AI minutes the extras cost nothing. */
  lemma AddOnAllowance(teamSize: int, boardCount: int)
    requires teamSize <= 10 && boardCount <= 10
    ensures AddOnCost(teamSize, boardCount, 0) == 0.0
  {
  }

  /** With a non-negative number of AI minutes the extras never cost less than nothing. */
  lemma AddOnNonNegative(teamSize: int, boardCount: int, aiMinutes: int)
    requires aiMinutes >= 0
    ensures AddOnCost(teamSize, boardCount, aiMinutes) >= 0.0
  {
  }

  /** For a fixed plan the estimate never falls as the team, the canvases or the AI minutes grow. */
  lemma EstimatedCostMonotone(plan: Plan, t1: int, t2: int, b1: int, b2: int, a1: int, a2: int)
    requires t1 <= t2 && b1 <= b2 && a1 <= a2
    ensures EstimatedCost(plan, t1, b1, a1) <= EstimatedCost(plan, t2, b2, a2)
  {
    assert Max0(t1 - 10) <= Max0(t2 - 10);
    assert Max0(b1 - 10) <= Max0(b2 - 10);
    assert a1 as real * 0.4 <= a2 as real * 0.4;
  }

  /** The suggested estimate is the same whichever locale the plans come from. */
  lemma EstimateLocaleIndependent(teamSize: int, boardCount: int, aiMinutes: int)
    ensures EstimatedCost(CalculatorPlan(Plans(En), teamSize), teamSize, boardCount, aiMinutes)
         == EstimatedCost(CalculatorPlan(Plans(Ru), teamSize), teamSize, boardCount, aiMinutes)
  {
    PlanNamesLocaleIndependent();
  }

  /** Small teams are suggested the free plan and pay nothing. */
  lemma SmallTeamPaysNothing(language: Language, teamSize: int, boardCount: int, aiMinutes: int)
    requires Supported(language)
    requires teamSize <= 5
    ensures CalculatorPlan(Plans(language), teamSize).name == "Free"
    ensures EstimatedCost(CalculatorPlan(Plans(language), teamSize), teamSize, boardCount, aiMinutes) == 0.0
  {
  }

  /** The slider defaults of 8 people, 12 canvases and 30 AI minutes suggest Pro at 49 + 4 + 12 = 65. */
  lemma DefaultEstimate()
    ensures CalculatorPlan(PlansEn, 8).name == "Pro"
    ensures EstimatedCost(CalculatorPlan(PlansEn, 8), 8, 12, 30) == 65.0
  {
  }

  /** As written: the "per month" note is hidden when the price text reads "Free forever", which is English text. */
  predicate ShowsPerMonthAsWritten(plan: Plan) {
    plan.price != "Free forever"
  }

  /** Corrected: the note is hidden for the free plan, recognised by its locale-independent name. */
  predicate ShowsPerMonth(plan: Plan) {
    plan.name != "Free"
  }

  /** In Russian the free plan's price text differs, so the note appears beside its $0 estimate. */
  lemma PerMonthNoteAsWrittenDependsOnLocale()
    ensures !ShowsPerMonthAsWritten(Plans(En)[0])
    ensures ShowsPerMonthAsWritten(Plans(Ru)[0])
    ensures Plans(Ru)[0].name == "Free"
  {
    assert PlansRu[0].price[0] != 'F';
  }

  /** The corrected note is shown exactly when the suggested estimate is positive, in both locales. */
  lemma PerMonthNoteMatchesEstimate(language: Language, teamSize: int, boardCount: int, aiMinutes: int)
    requires Supported(language)
    requires aiMinutes >= 0
    ensures var plan := CalculatorPlan(Plans(language), teamSize);
      ShowsPerMonth(plan) <==> EstimatedCost(plan, teamSize, boardCount, aiMinutes) > 0.0
  {
  }

  // ---------------------------------------------------------------------
  // The demo-request form
  // ---------------------------------------------------------------------

  datatype Field = NameField | EmailField | CompanyField | MessageField

  datatype FormData = FormData(name: string, email: string, company: string, message: string)

  const EmptyForm := FormData("", "", "", "")

  function Get(form: FormData, field: Field): string {
    match field
    case NameField => form.name
    case EmailField => form.email
    case CompanyField => form.company
    case MessageField => form.message
  }

  /** `handleChange`: the edited field takes the new value, the others keep theirs. */
  function HandleChange(form: FormData, field: Field, value: string): (r: FormData)
    ensures Get(r, field) == value
    ensures forall f :: f != field ==> Get(r, f) == Get(form, f)
  {
    match field
    case NameField => form.(name := value)
    case EmailField => form.(email := value)
    case CompanyField => form.(company := value)
    case MessageField => form.(message := value)
  }

  /** `handleSubmit`: after the request is sent every field is empty again. */
  function HandleSubmit(form: FormData): (r: FormData)
    ensures forall f :: Get(r, f) == ""
  {
    EmptyForm
  }

  /** Edits to different fields commute, and a later edit of the same field wins. */
  lemma HandleChangeCommutes(form: FormData, f1: Field, v1: string, f2: Field, v2: string)
    ensures f1 != f2 ==> HandleChange(HandleChange(form, f1, v1), f2, v2) == HandleChange(HandleChange(form, f2, v2), f1, v1)
    ensures HandleChange(HandleChange(form, f1, v1), f1, v2) == HandleChange(form, f1, v2)
  {
  }

  /** Two forms that agree on every field are the same form. */
  lemma FormExtensional(a: FormData, b: FormData)
    requires forall f :: Get(a, f) == Get(b, f)
    ensures a == b
  {
    assert Get(a, NameField) == Get(b, NameField);
    assert Get(a, EmailField) == Get(b, EmailField);
    assert Get(a, CompanyField) == Get(b, CompanyField);
    assert Get(a, MessageField) == Get(b, MessageField);
  }
}
