/**
 * The five-step quote form: the goal checklist, the service recommended from
 * the checked goals (a count followed by a first-wins maximum), the price
 * range looked up from the budget, the per-step validity test and the step
 * counter.
 */
module QuoteForm {
  import Collections
  import Steps

  const Strategy: string := "AI Strategy & Consulting"

  /** The service each goal points to. */
  const ServiceRecommendations: map<string, string> := map[
    "automate" := "Process Automation",
    "chatbot" := "AI Chatbots & Assistants",
    "analytics" := "Predictive Analytics",
    "vision" := "Computer Vision",
    "nlp" := "AI Chatbots & Assistants",
    "integration" := "Process Automation",
    "strategy" := Strategy,
    "training" := "AI Training & Enablement"
  ]

  const DefaultRange: string := "15,000 - 50,000"

  /** The price range shown for each budget choice. */
  const Ranges: map<string, string> := map[
    "under10k" := "5,000 - 10,000",
    "10k-25k" := "15,000 - 25,000",
    "25k-50k" := "30,000 - 50,000",
    "50k-100k" := "60,000 - 100,000",
    "over100k" := "100,000+",
    "flexible" := DefaultRange
  ]

  const LastStep: int := 5

  /** `serviceRecommendations[goal] || "AI Strategy & Consulting"`. */
  function Recommend(goal: string): (service: string)
    ensures goal in ServiceRecommendations ==> service == ServiceRecommendations[goal]
    ensures goal !in ServiceRecommendations ==> service == Strategy
    ensures service == Strategy || service in ServiceRecommendations.Values
  {
    if goal in ServiceRecommendations then ServiceRecommendations[goal] else Strategy
  }

  /** The recommendation of each goal, goal by goal. */
  function Recommendations(goals: seq<string>): (recs: seq<string>)
    ensures |recs| == |goals|
    ensures forall i :: 0 <= i < |goals| ==> recs[i] == Recommend(goals[i])
  {
    seq(|goals|, i requires 0 <= i < |goals| => Recommend(goals[i]))
  }

  /**
   * `top` is a most frequent recommendation, and among the recommendations
   * with that count it is the one that occurs first.
   */
  ghost predicate IsTopRecommendation(recs: seq<string>, top: string)
  {
    && top in recs
    && (forall s :: multiset(recs)[s] <= multiset(recs)[top])
    && (forall s :: s in recs && multiset(recs)[s] == multiset(recs)[top] ==>
          Collections.FirstIndex(recs, top) <= Collections.FirstIndex(recs, s))
  }

  /**
   * A key of the counter whose count is at least every count and exceeds
   * every earlier count is the top recommendation.
   */
  lemma TopOfTally(recs: seq<string>, m: nat)
    requires m < |Collections.Tally(recs)|
    requires forall l :: 0 <= l < |Collections.Tally(recs)| ==> Collections.Tally(recs)[l].1 <= Collections.Tally(recs)[m].1
    requires forall l :: 0 <= l < m ==> Collections.Tally(recs)[l].1 < Collections.Tally(recs)[m].1
    ensures IsTopRecommendation(recs, Collections.Tally(recs)[m].0)
  {
    var counts := Collections.Tally(recs);
    var top := counts[m].0;
    Collections.TallyCounts(recs);
    assert top == Collections.Keys(counts)[m];
    assert Collections.Distinct(recs)[m] == top;
    forall s | s in recs
      ensures multiset(recs)[s] <= multiset(recs)[top]
    {
      var l := Collections.TallyEntry(recs, s);
    }
    forall s | s in recs && multiset(recs)[s] == multiset(recs)[top]
      ensures Collections.FirstIndex(recs, top) <= Collections.FirstIndex(recs, s)
    {
      var l := Collections.TallyEntry(recs, s);
      if l > m {
        Collections.DistinctOrderOf(recs, top, s, m, l);
      }
    }
  }

  /**
   * The first half of `getRecommendedService`: each goal's recommendation is
   * counted in an object. Its keys are the distinct recommendations in first
   * occurrence order, each with its number of occurrences.
   */
  method CountRecommendations(goals: seq<string>) returns (counts: Collections.Counter<string>)
    ensures counts == Collections.Tally(Recommendations(goals))
    ensures Collections.Keys(counts) == Collections.Distinct(Recommendations(goals))
    ensures forall i :: 0 <= i < |counts| ==> counts[i].1 == multiset(Recommendations(goals))[counts[i].0]
  {
    var recs := Recommendations(goals);
    counts := [];
    var i := 0;
    while i < |goals|
      invariant 0 <= i <= |goals|
      invariant counts == Collections.Tally(recs[..i])
    {
      Collections.TallySnoc(recs, i);
      counts := Collections.Bump(counts, recs[i]);
      i := i + 1;
    }
    assert recs[..|goals|] == recs;
    Collections.TallyCounts(recs);
  }

  /**
   * The second half of `getRecommendedService`: scan the counter from a
   * maximum of 0, replacing the candidate only on a strictly larger count.
   * With positive counts the result is the key at index `m` whose count is
   * the maximum and exceeds every earlier count.
   */
  method FirstMaximum(counts: Collections.Counter<string>) returns (top: string, ghost m: nat)
    requires forall l :: 0 <= l < |counts| ==> counts[l].1 >= 1
    ensures counts == [] ==> top == Strategy
    ensures counts != [] ==> m < |counts| && top == counts[m].0
    ensures counts != [] ==> forall l :: 0 <= l < |counts| ==> counts[l].1 <= counts[m].1
    ensures counts != [] ==> forall l :: 0 <= l < m ==> counts[l].1 < counts[m].1
  {
    var maxCount := 0;
    top := Strategy;
    m := 0;
    var j := 0;
    while j < |counts|
      invariant 0 <= j <= |counts|
      invariant j == 0 ==> maxCount == 0 && top == Strategy
      invariant m <= j && (j > 0 ==> m < j && counts[m].0 == top && counts[m].1 == maxCount)
      invariant forall l :: 0 <= l < j ==> counts[l].1 <= maxCount
      invariant forall l :: 0 <= l < m ==> counts[l].1 < maxCount
    {
      if counts[j].1 > maxCount {
        maxCount := counts[j].1;
        top := counts[j].0;
        m := j;
      }
      j := j + 1;
    }
  }

  /**
   * `getRecommendedService`: with no goals, "AI Strategy & Consulting";
   * otherwise count each goal's recommendation in a counter (keys in first
   * occurrence order), then scan the counter keeping the first strictly
   * larger count. The result is the most frequent recommendation, ties going
   * to the one recommended first, and it is always one of the table's
   * services or the strategy default.
   */
  method GetRecommendedService(goals: seq<string>) returns (top: string)
    ensures goals == [] ==> top == Strategy
    ensures goals != [] ==> IsTopRecommendation(Recommendations(goals), top)
    ensures top == Strategy || top in ServiceRecommendations.Values
  {
    if |goals| == 0 {
      return Strategy;
    }
    var recs := Recommendations(goals);
    var counts := CountRecommendations(goals);
    assert recs[0] in Collections.Distinct(recs);
    forall l | 0 <= l < |counts|
      ensures counts[l].1 >= 1
    {
      assert counts[l].0 in Collections.Distinct(recs);
    }

    ghost var m;
    top, m := FirstMaximum(counts);
    TopOfTally(recs, m);
    RecommendationInTable(goals, top);
  }

  /** Every recommendation of a goal is a service of the table or the strategy default. */
  lemma RecommendationInTable(goals: seq<string>, service: string)
    requires service in Recommendations(goals)
    ensures service == Strategy || service in ServiceRecommendations.Values
  {
    var i :| 0 <= i < |goals| && Recommendations(goals)[i] == service;
    assert service == Recommend(goals[i]);
  }

  /** `getEstimatedRange`: the budget's range, or the default one; the goals play no part. */
  function EstimatedRange(budget: string): (range: string)
    ensures budget in Ranges ==> range == Ranges[budget]
    ensures budget !in Ranges ==> range == DefaultRange
    ensures range in Ranges.Values
  {
    assert Ranges["flexible"] == DefaultRange;
    if budget in Ranges then Ranges[budget] else DefaultRange
  }

  /** The checkbox state `handleGoalChange` receives; "indeterminate" is truthy. */
  datatype CheckState = Checked | Unchecked | Indeterminate

  predicate IsChecked(c: CheckState)
  {
    c != Unchecked
  }

  /** Every goal other than `id`. */
  function OtherGoal(id: string): string -> bool
  {
    (g: string) => g != id
  }

  /**
   * `handleGoalChange`: checking an absent goal appends it, unchecking a
   * present goal removes every copy of it; otherwise nothing changes. Either
   * way the goal ends up selected exactly when the box is (truthily) checked.
   */
  function GoalChange(goals: seq<string>, checked: CheckState, goalId: string): (r: seq<string>)
    ensures IsChecked(checked) && goalId !in goals ==> r == goals + [goalId]
    ensures !IsChecked(checked) && goalId in goals ==>
      Collections.IsSubsequence(r, goals) && forall g :: g != goalId ==> multiset(r)[g] == multiset(goals)[g]
    ensures goalId in r <==> IsChecked(checked)
    ensures (IsChecked(checked) <==> goalId in goals) ==> r == goals
  {
    if IsChecked(checked) && goalId !in goals then goals + [goalId]
    else if !IsChecked(checked) && goalId in goals then
      Collections.FilterCounts(goals, OtherGoal(goalId));
      Collections.FilterSubsequence(goals, OtherGoal(goalId));
      Collections.Filter(goals, OtherGoal(goalId))
    else goals
  }

  /** Repeating the same checkbox change does nothing more. */
  lemma GoalChangeIdempotent(goals: seq<string>, checked: CheckState, goalId: string)
    ensures GoalChange(GoalChange(goals, checked, goalId), checked, goalId) == GoalChange(goals, checked, goalId)
  {
  }

  /** Unchecking a goal and checking it again moves it to the end of the list. */
  lemma UncheckThenCheck(goals: seq<string>, goalId: string)
    requires goalId in goals
    ensures GoalChange(GoalChange(goals, Unchecked, goalId), Checked, goalId)
      == Collections.Filter(goals, OtherGoal(goalId)) + [goalId]
  {
  }

  /** `isStepValid`: what each step needs; step 5 defers to the form's own validation. */
  predicate StepValid(step: int, businessType: string, goals: seq<string>, budget: string, urgency: string, formValid: bool)
  {
    match step
    case 1 => businessType != ""
    case 2 => |goals| > 0
    case 3 => budget != ""
    case 4 => urgency != ""
    case 5 => formValid
    case _ => false
  }

  /** Checking a goal makes step 2 valid; unchecking the only goal makes it invalid. */
  lemma GoalChangeStepTwo(goals: seq<string>, checked: CheckState, goalId: string,
                          businessType: string, budget: string, urgency: string, formValid: bool)
    ensures IsChecked(checked) ==> StepValid(2, businessType, GoalChange(goals, checked, goalId), budget, urgency, formValid)
    ensures !IsChecked(checked) && goals == [goalId] ==>
      !StepValid(2, businessType, GoalChange(goals, checked, goalId), budget, urgency, formValid)
  {
    if !IsChecked(checked) && goals == [goalId] {
      var r := GoalChange(goals, checked, goalId);
      assert forall g :: g in r ==> g in goals && g != goalId;
    }
  }

  /** The fields of the form the step logic reads, and the current step. */
  class Form {
    var step: int
    var businessType: string
    var projectGoals: seq<string>
    var budget: string
    var urgency: string

    predicate Valid()
      reads this
    {
      1 <= step <= LastStep
    }

    /** The form's default values, on step 1. */
    constructor()
      ensures Valid() && step == 1
      ensures businessType == "" && projectGoals == [] && budget == "" && urgency == ""
    {
      step := 1;
      businessType := "";
      projectGoals := [];
      budget := "";
      urgency := "";
    }

    /** `isStepValid()`, given the form's overall validity. */
    predicate IsStepValid(formValid: bool)
      reads this
    {
      StepValid(step, businessType, projectGoals, budget, urgency, formValid)
    }

    /** `handleNextStep`: forward one step unless on the last; nothing else changes. */
    method HandleNextStep()
      requires Valid()
      modifies this
      ensures Valid() && step == Steps.Next(old(step), LastStep)
      ensures businessType == old(businessType) && projectGoals == old(projectGoals)
      ensures budget == old(budget) && urgency == old(urgency)
    {
      if step < LastStep {
        step := step + 1;
      }
    }

    /** `handlePrevStep`: back one step unless on the first; nothing else changes. */
    method HandlePrevStep()
      requires Valid()
      modifies this
      ensures Valid() && step == Steps.Prev(old(step))
      ensures businessType == old(businessType) && projectGoals == old(projectGoals)
      ensures budget == old(budget) && urgency == old(urgency)
    {
      if step > 1 {
        step := step - 1;
      }
    }

    /** `handleGoalChange`: only the goal list changes. */
    method HandleGoalChange(checked: CheckState, goalId: string)
      modifies this
      ensures projectGoals == GoalChange(old(projectGoals), checked, goalId)
      ensures step == old(step) && businessType == old(businessType)
      ensures budget == old(budget) && urgency == old(urgency)
    {
      var current := projectGoals;
      if IsChecked(checked) && goalId !in current {
        projectGoals := current + [goalId];
      } else if !IsChecked(checked) && goalId in current {
        projectGoals := Collections.Filter(current, OtherGoal(goalId));
      }
    }
  }
}
