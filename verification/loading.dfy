/** The staged overlay shown while a listing is being saved: a step counter over four
    fixed messages, advanced once per interval tick and stopping at the last one. */
module Loading {

  const Steps: seq<string> := [
    "Initializing connection...",
    "Connecting to database...",
    "Saving your information...",
    "Thank you for your submission! \U{1F389}"
  ]

  /** The index of the last message, where the counter stops. */
  const LastStep := |Steps| - 1

  /** The updater handed to `setStep` on every tick: advance while not on the last message. */
  function NextStep(prev: nat): (next: nat)
    ensures prev <= next <= prev + 1
    ensures next == prev <==> prev >= LastStep
    ensures prev <= LastStep ==> next <= LastStep
  {
    if prev < |Steps| - 1 then prev + 1 else prev
  }

  /** The step shown after k ticks of the interval, starting from the initial 0. */
  function StepAfter(k: nat): (s: nat)
    ensures s <= k && s <= LastStep
  {
    if k == 0 then 0 else NextStep(StepAfter(k - 1))
  }

  /** The counter climbs by one per tick and saturates at the last message. */
  lemma {:induction false} StepAfterIsCapped(k: nat)
    ensures StepAfter(k) == if k < LastStep then k else LastStep
  {
    if k > 0 {
      StepAfterIsCapped(k - 1);
    }
  }

  /** The step never goes down. */
  lemma {:induction false} StepAfterMonotone(j: nat, k: nat)
    requires j <= k
    ensures StepAfter(j) <= StepAfter(k)
  {
    if j < k {
      StepAfterMonotone(j, k - 1);
    }
  }

  /** How one message is drawn for the current step. */
  datatype Stage =
    | Done     // before the current step: green, with a check mark
    | Current  // the current step: highlighted, with the animated dots
    | Pending  // after the current step: dimmed

  /** The class and mark of message `index`: check-marked before the step, highlighted
      at it, dimmed after it. */
  function StageOf(index: nat, step: nat): (s: Stage)
  {
    if index < step then Done else if index == step then Current else Pending
  }

  function Stages(step: nat): (r: seq<Stage>)
    ensures |r| == |Steps|
  {
    seq(|Steps|, i requires 0 <= i => StageOf(i, step))
  }

  /** For every step the counter can hold, the messages before it are done, it is the
      only current one, and the messages after it are pending. */
  lemma StagesShape(step: nat)
    requires step <= LastStep
    ensures Stages(step) == seq(step, _ => Done) + [Current] + seq(LastStep - step, _ => Pending)
  {
    var expected := seq(step, _ => Done) + [Current] + seq(LastStep - step, _ => Pending);
    assert |expected| == |Steps|;
    forall i | 0 <= i < |Steps|
      ensures Stages(step)[i] == expected[i]
    {
      if i < step {
        assert expected[i] == seq(step, _ => Done)[i];
      } else if i > step {
        assert expected[i] == seq(LastStep - step, _ => Pending)[i - step - 1];
      }
    }
  }

  /** From the third tick on, the thank-you message is current and the rest are checked off. */
  lemma FinalStageReached(k: nat)
    requires k >= LastStep
    ensures StepAfter(k) == LastStep
    ensures Stages(StepAfter(k)) == [Done, Done, Done, Current]
  {
    StepAfterIsCapped(k);
    StagesShape(LastStep);
  }

  /** The overlay component: its step state and the ticks of its interval so far. */
  class LoadingSequence {
    var step: nat
    ghost var ticks: nat

    ghost predicate Valid()
      reads this
    {
      step == StepAfter(ticks) && step <= LastStep
    }

    /** Mounting the overlay starts the counter at the first message. */
    constructor ()
      ensures Valid() && step == 0 && ticks == 0
    {
      step := 0;
      ticks := 0;
    }

    /** One firing of the 1000 ms interval. */
    method Tick()
      requires Valid()
      modifies this
      ensures Valid()
      ensures ticks == old(ticks) + 1
      ensures step == NextStep(old(step))
      ensures old(step) <= step
    {
      step := NextStep(step);
      ticks := ticks + 1;
    }

    /** The messages as drawn right now. */
    function View(): (r: seq<Stage>)
      reads this
      requires Valid()
      ensures |r| == |Steps|
      ensures r[step] == Current
      ensures forall i :: 0 <= i < step ==> r[i] == Done
      ensures forall i :: step < i < |Steps| ==> r[i] == Pending
    {
      Stages(step)
    }
  }
}
