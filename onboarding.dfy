/**
 * The first-run tour (`OnboardingTour`): a dialog walking through five
 * steps, shown on mount unless the completion flag is stored, and closed
 * for good by finishing or skipping it.
 */
module Onboarding {
  import opened Js

  /** `TOUR_STEPS.length`. */
  const StepCount: nat := 5

  /** The tour's state: the current step, whether the dialog shows, and the stored completion flag. */
  datatype TourState = TourState(step: nat, open: bool, flag: Option<string>)

  /** The step is one of the tour's steps. */
  predicate InRange(s: TourState) {
    s.step < StepCount
  }

  /** `!completed`: a missing or empty flag is falsy and opens the tour. */
  predicate OpensOnMount(flag: Option<string>) {
    flag.None? || flag.value == ""
  }

  /** `handleComplete` (and `handleSkip`): store `"true"` and close. */
  function Complete(s: TourState): (r: TourState)
    ensures !r.open && r.flag == Some("true") && r.step == s.step
  {
    s.(open := false, flag := Some("true"))
  }

  /** `handleNext`: advance, or complete on the last step. */
  function Next(s: TourState): (r: TourState)
    ensures s.step < StepCount - 1 ==> r == s.(step := s.step + 1)
    ensures s.step >= StepCount - 1 ==> r == Complete(s)
  {
    if s.step < StepCount - 1 then s.(step := s.step + 1) else Complete(s)
  }

  /** `handlePrev`: step back, except on the first step. */
  function Prev(s: TourState): (r: TourState)
    ensures s.step > 0 ==> r == s.(step := s.step - 1)
    ensures s.step == 0 ==> r == s
  {
    if s.step > 0 then s.(step := s.step - 1) else s
  }

  /** Every handler keeps the step among the tour's steps. */
  lemma StepsStayInRange(s: TourState)
    requires InRange(s)
    ensures InRange(Next(s)) && InRange(Prev(s)) && InRange(Complete(s))
  {
  }

  /** Going forward and back again returns to the same step, before the last one. */
  lemma PrevUndoesNext(s: TourState)
    requires s.step < StepCount - 1
    ensures Prev(Next(s)) == s
  {
  }

  /** `k` presses of "next". */
  function NextTimes(s: TourState, k: nat): TourState {
    if k == 0 then s else Next(NextTimes(s, k - 1))
  }

  /** From step 0, `k` presses of "next" (fewer than five) reach step `k` with nothing else changed. */
  lemma {:induction false} WalkThrough(s: TourState, k: nat)
    requires s.step == 0 && k < StepCount
    ensures NextTimes(s, k) == s.(step := k)
  {
    if k > 0 {
      WalkThrough(s, k - 1);
    }
  }

  /** The fifth press of "next" from step 0 completes the tour. */
  lemma FifthNextCompletes(s: TourState)
    requires s.step == 0
    ensures NextTimes(s, StepCount) == Complete(s.(step := StepCount - 1))
  {
    WalkThrough(s, StepCount - 1);
  }

  /** Once completed, the tour no longer opens on a later mount. */
  lemma CompletedStaysClosed(s: TourState)
    ensures !OpensOnMount(Complete(s).flag)
  {
  }

  /** `OnboardingTour`'s state held by the component and the storage key it reads. */
  class Tour {
    var currentStep: nat
    var open: bool
    var flag: Option<string>

    function State(): TourState
      reads this
    {
      TourState(currentStep, open, flag)
    }

    /** `useState(0)`, `useState(false)`, and whatever storage holds. */
    constructor(flag: Option<string>)
      ensures State() == TourState(0, false, flag)
    {
      currentStep := 0;
      open := false;
      this.flag := flag;
    }

    /** The mount effect: open unless the completion flag is stored. */
    method Mount()
      modifies this`open
      ensures open == (old(open) || OpensOnMount(flag))
    {
      if flag.None? || flag.value == "" {
        open := true;
      }
    }

    method HandleComplete()
      modifies this`open, this`flag
      ensures State() == Complete(old(State()))
    {
      flag := Some("true");
      open := false;
    }

    method HandleNext()
      modifies this
      ensures State() == Next(old(State()))
    {
      if currentStep < StepCount - 1 {
        currentStep := currentStep + 1;
      } else {
        HandleComplete();
      }
    }

    method HandlePrev()
      modifies this`currentStep
      ensures State() == Prev(old(State()))
    {
      if currentStep > 0 {
        currentStep := currentStep - 1;
      }
    }

    /** `handleSkip` is `handleComplete`. */
    method HandleSkip()
      modifies this`open, this`flag
      ensures State() == Complete(old(State()))
    {
      HandleComplete();
    }

    /** `isFirst`. */
    predicate IsFirst()
      reads this
    {
      currentStep == 0
    }

    /** `isLast`. */
    predicate IsLast()
      reads this
    {
      currentStep == StepCount - 1
    }
  }
}
