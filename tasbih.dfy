// The tally counter ("tasbih"): a count that wraps after its goal, a selected
// phrase cycled through the nine phrases, a goal toggled between 33 and 99,
// and a guard that keeps phrase playback from starting twice.
module Tasbih {
  import opened Types
  import opened Constants
  import opened AdGate

  const SHORT_GOAL: nat := 33
  const LONG_GOAL: nat := 99

  /** `(count + 1) % (goal + 1)`: one more, wrapping to 0 after `goal`. */
  function NextCount(count: nat, goal: nat): (r: nat)
    ensures r <= goal
    ensures count < goal ==> r == count + 1
    ensures count == goal ==> r == 0
  {
    (count + 1) % (goal + 1)
  }

  /** The count after `n` taps. */
  function CountAfter(count: nat, goal: nat, n: nat): nat
  {
    if n == 0 then count else NextCount(CountAfter(count, goal, n - 1), goal)
  }

  /** From 0, the first `goal` taps count 1, 2, ..., goal. */
  lemma {:induction false} CountsUpFromZero(goal: nat, n: nat)
    requires n <= goal
    ensures CountAfter(0, goal, n) == n
  {
    if n > 0 {
      CountsUpFromZero(goal, n - 1);
    }
  }

  /** From 0, `goal + 1` taps bring the count back to 0. */
  lemma FullRoundReturnsToZero(goal: nat)
    ensures CountAfter(0, goal, goal + 1) == 0
  {
    CountsUpFromZero(goal, goal);
  }

  /** `(idx + dir + 9) % 9` for a step of one phrase forward or back. */
  function CycledIndex(idx: nat, dir: int): (r: nat)
    requires idx < |TASBIH_PHRASES| && (dir == 1 || dir == -1)
    ensures r < |TASBIH_PHRASES|
    ensures dir == 1 ==> r == if idx == |TASBIH_PHRASES| - 1 then 0 else idx + 1
    ensures dir == -1 ==> r == if idx == 0 then |TASBIH_PHRASES| - 1 else idx - 1
  {
    (idx + dir + |TASBIH_PHRASES|) % |TASBIH_PHRASES|
  }

  /** Stepping forward and then back, or back and then forward, restores the phrase. */
  lemma CycleRoundTrip(idx: nat)
    requires idx < |TASBIH_PHRASES|
    ensures CycledIndex(CycledIndex(idx, 1), -1) == idx
    ensures CycledIndex(CycledIndex(idx, -1), 1) == idx
  {
  }

  /** `goal === 33 ? 99 : 33`. */
  function ToggledGoal(goal: nat): (g: nat)
    ensures g == SHORT_GOAL || g == LONG_GOAL
    ensures g != goal
  {
    if goal == SHORT_GOAL then LONG_GOAL else SHORT_GOAL
  }

  /** On the two goals the toggle is its own inverse. */
  lemma ToggledGoalInvolution(goal: nat)
    requires goal == SHORT_GOAL || goal == LONG_GOAL
    ensures ToggledGoal(ToggledGoal(goal)) == goal
  {
  }

  /** Toggling does not reset the count: after 99 -> 33 a count of 50 stands above
      the goal, and the next tap brings it back into [0, goal]. */
  lemma CountMayExceedGoal()
    ensures ToggledGoal(LONG_GOAL) == SHORT_GOAL && 50 > SHORT_GOAL
    ensures NextCount(50, SHORT_GOAL) == 17
  {
  }

  /** The tally component's state. */
  class Counter {
    var count: nat
    var phraseIdx: nat
    var goal: nat
    var isPlaying: bool

    ghost predicate Valid()
      reads this
    {
      phraseIdx < |TASBIH_PHRASES| && (goal == SHORT_GOAL || goal == LONG_GOAL)
    }

    /** Count 0, first phrase, goal 33, nothing playing. */
    constructor ()
      ensures Valid()
      ensures count == 0 && phraseIdx == 0 && goal == SHORT_GOAL && !isPlaying
    {
      count, phraseIdx, goal, isPlaying := 0, 0, SHORT_GOAL, false;
    }

    /** The phrase on screen. */
    function Phrase(): TasbihPhrase
      reads this
      requires Valid()
    {
      TASBIH_PHRASES[phraseIdx]
    }

    /** `handleIncrement`: never shows an ad. */
    method Increment()
      requires Valid()
      modifies this
      ensures Valid()
      ensures count == NextCount(old(count), goal)
      ensures goal == old(goal) && phraseIdx == old(phraseIdx) && isPlaying == old(isPlaying)
    {
      count := (count + 1) % (goal + 1);
    }

    /** `handleReset`: never shows an ad. */
    method Reset()
      requires Valid()
      modifies this
      ensures Valid()
      ensures count == 0
      ensures goal == old(goal) && phraseIdx == old(phraseIdx) && isPlaying == old(isPlaying)
    {
      count := 0;
    }

    /** `cyclePhrase(dir)`; `showAd` is whether `onTriggerInterstitial` is called. */
    method CyclePhrase(dir: int, sample: real) returns (showAd: bool)
      requires Valid() && (dir == 1 || dir == -1)
      modifies this
      ensures Valid()
      ensures phraseIdx == CycledIndex(old(phraseIdx), dir) && count == 0
      ensures goal == old(goal) && isPlaying == old(isPlaying)
      ensures showAd <==> sample < 0.2
    {
      phraseIdx := (phraseIdx + dir + |TASBIH_PHRASES|) % |TASBIH_PHRASES|;
      count := 0;
      showAd := ShouldShowAd(PhraseCycled, sample);
    }

    /** `toggleGoal`: the count is left as it is. */
    method ToggleGoal(sample: real) returns (showAd: bool)
      requires Valid()
      modifies this
      ensures Valid()
      ensures goal == ToggledGoal(old(goal))
      ensures count == old(count) && phraseIdx == old(phraseIdx) && isPlaying == old(isPlaying)
      ensures showAd <==> sample < 0.3
    {
      goal := if goal == SHORT_GOAL then LONG_GOAL else SHORT_GOAL;
      showAd := ShouldShowAd(GoalToggled, sample);
    }

    /** The synchronous part of `handlePlayAudio`: a no-op while a playback is in
        flight; otherwise marks playback as started and yields the Arabic text to
        speak. */
    method BeginPlayAudio() returns (text: Option<string>)
      requires Valid()
      modifies this
      ensures Valid() && isPlaying
      ensures old(isPlaying) ==> text == None
      ensures !old(isPlaying) ==> text == Some(Phrase().ar)
      ensures count == old(count) && phraseIdx == old(phraseIdx) && goal == old(goal)
    {
      if isPlaying {
        return None;
      }
      isPlaying := true;
      text := Some(TASBIH_PHRASES[phraseIdx].ar);
    }

    /** The `finally` of `handlePlayAudio`, after playback succeeded or failed;
        `alert` is whether the failure alert is shown. */
    method FinishPlayAudio(succeeded: bool) returns (alert: bool)
      requires Valid()
      modifies this
      ensures Valid() && !isPlaying
      ensures alert <==> !succeeded
      ensures count == old(count) && phraseIdx == old(phraseIdx) && goal == old(goal)
    {
      alert := !succeeded;
      isPlaying := false;
    }
  }
}
