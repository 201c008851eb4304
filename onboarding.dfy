/**
 * The first-run tour of Onboarding.jsx: a splash step followed by feature
 * steps, advanced by "continue" and left by "skip", after which a persisted
 * flag records that the tour was completed.
 */
module Onboarding {

  datatype Step = Splash | Feature(title: string, subtitle: string, mockupType: string)

  const Steps: seq<Step> := [
    Splash,
    Feature("Создавай уникальные миксы", "Комбинируй вкусы от лучших брендов и делись с друзьями", "mix-builder"),
    Feature("15+ вкусов, 3 бренда", "Darkside, Tangiers, Fumari и другие премиум табаки", "brands"),
    Feature("Заказывай на столик", "Один клик — и твой микс уже готовят", "order"),
    Feature("Оценивай и сохраняй", "Лайкай миксы, следи за рейтингом и историей заказов", "social")]

  /** `steps.filter(s => s.type === 'feature')`. */
  function FeatureSteps(steps: seq<Step>): (r: seq<Step>)
    ensures |r| <= |steps|
    ensures forall i :: 0 <= i < |r| ==> r[i].Feature?
  {
    if steps == [] then []
    else FeatureSteps(steps[..|steps| - 1]) + (if steps[|steps| - 1].Feature? then [steps[|steps| - 1]] else [])
  }

  /** `currentFeatureIndex`: how many feature steps lie up to and including the current one, less one. */
  function CurrentFeatureIndex(steps: seq<Step>, current: nat): (r: int)
    requires current < |steps|
    ensures -1 <= r <= current
    ensures steps[current].Feature? ==> r >= 0
  {
    assert steps[..current + 1][..current] == steps[..current];
    |FeatureSteps(steps[..current + 1])| - 1
  }

  /** A splash first and feature steps after it. */
  predicate SplashThenFeatures(steps: seq<Step>) {
    |steps| >= 1 && steps[0] == Splash && forall i :: 1 <= i < |steps| ==> steps[i].Feature?
  }

  /** Every step but the splash among the first `k` is a feature. */
  lemma {:induction false} FeaturesAmongFirst(steps: seq<Step>, k: nat)
    requires SplashThenFeatures(steps) && 1 <= k <= |steps|
    ensures |FeatureSteps(steps[..k])| == k - 1
    decreases k
  {
    if k > 1 {
      assert steps[..k][..k - 1] == steps[..k - 1];
      FeaturesAmongFirst(steps, k - 1);
    } else {
      assert steps[..1][..0] == [];
    }
  }

  /** The tour has four feature steps. */
  lemma FeatureStepCount()
    ensures |FeatureSteps(Steps)| == 4
  {
    FeaturesAmongFirst(Steps, 5);
    assert Steps[..5] == Steps;
  }

  /** On a feature step the progress dots mark the step's position after the splash. */
  lemma FeatureIndexOfStep(current: nat)
    requires 1 <= current < |Steps|
    ensures CurrentFeatureIndex(Steps, current) == current - 1
    ensures 0 <= CurrentFeatureIndex(Steps, current) < |FeatureSteps(Steps)|
  {
    FeaturesAmongFirst(Steps, current + 1);
    FeatureStepCount();
  }

  /** The component's state: the current step, the persisted flag, and whether it navigated home. */
  class OnboardingFlow {
    var currentStep: nat
    var completed: bool
    var navigatedHome: bool

    ghost predicate Valid()
      reads this
    {
      currentStep < |Steps|
    }

    /** The flag is whatever was stored before; the tour opens on the splash. */
    constructor (storedFlag: bool)
      ensures Valid() && currentStep == 0 && View() == Splash
      ensures completed == storedFlag && !navigatedHome
    {
      currentStep := 0;
      completed := storedFlag;
      navigatedHome := false;
    }

    /** The step on screen. */
    function View(): Step
      reads this
      requires Valid()
    {
      Steps[currentStep]
    }

    /** `handleContinue`: the next step, or at the last step the flag and the home page. */
    method Continue()
      requires Valid()
      modifies this
      ensures Valid()
      ensures old(currentStep) < |Steps| - 1 ==>
        currentStep == old(currentStep) + 1 && completed == old(completed) && navigatedHome == old(navigatedHome)
      ensures old(currentStep) == |Steps| - 1 ==>
        currentStep == old(currentStep) && completed && navigatedHome
    {
      if currentStep < |Steps| - 1 {
        currentStep := currentStep + 1;
      } else {
        completed := true;
        navigatedHome := true;
      }
    }

    /** `handleSkip`: the flag and the home page, from any step. */
    method Skip()
      requires Valid()
      modifies this
      ensures Valid() && currentStep == old(currentStep)
      ensures completed && navigatedHome
    {
      completed := true;
      navigatedHome := true;
    }
  }
}
