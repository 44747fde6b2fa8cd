/**
 * The quiz screen's state machine: which question is shown, the score so
 * far, the option picked for the current question, and whether the final
 * score is shown. Each event handler is one atomic transition.
 */
module QuizScreen {
  import opened Optional
  import opened PhrasalVerbs

  class TestScreen {
    /** The question list the screen was opened with. */
    const questions: seq<Question>

    var currentIndex: nat
    var score: nat
    var selectedOption: Option<nat>
    var showScore: bool

    /** 1 once an option has been picked for the current question, else 0. */
    function Answered(): nat
      reads this
    {
      if selectedOption.Some? then 1 else 0
    }

    /** The screen's invariant, for a non-empty question list (an empty one
        shows only an error text, and no handler is reachable): the index
        names a question, at most one point was scored per answered
        question, a picked option is one of the current question's options,
        and the final score is shown only once the last question has been
        answered. */
    ghost predicate Valid()
      reads this
    {
      |questions| > 0 ==>
        && currentIndex < |questions|
        && score <= currentIndex + Answered()
        && (selectedOption.Some? ==> selectedOption.value < |questions[currentIndex].options|)
        && (showScore ==> selectedOption.Some? && currentIndex == |questions| - 1)
    }

    /** The options are disabled once one has been picked. */
    predicate OptionsDisabled()
      reads this
    {
      selectedOption.Some?
    }

    /** The "next" button is disabled until an option has been picked. */
    predicate NextDisabled()
      reads this
      ensures NextDisabled() <==> !OptionsDisabled()
    {
      selectedOption.None?
    }

    /** The screen as first shown: first question, no score, nothing picked. */
    constructor (questions: seq<Question>)
      ensures Valid()
      ensures this.questions == questions
      ensures currentIndex == 0 && score == 0 && selectedOption == None && !showScore
    {
      this.questions := questions;
      currentIndex := 0;
      score := 0;
      selectedOption := None;
      showScore := false;
    }

    /** `onSelectOption`: the first pick for a question is recorded and earns
        exactly one point when it is the answer; any later pick is ignored. */
    method OnSelectOption(index: nat)
      requires Valid() && |questions| > 0
      requires index < |questions[currentIndex].options|
      modifies this
      ensures Valid()
      ensures old(OptionsDisabled()) ==> unchanged(this)
      ensures !old(OptionsDisabled()) ==>
        && selectedOption == Some(index)
        && score == old(score) + (if index == questions[currentIndex].answerIndex then 1 else 0)
        && currentIndex == old(currentIndex)
        && showScore == old(showScore)
    {
      if selectedOption != None {
        return;
      }
      selectedOption := Some(index);
      if index == questions[currentIndex].answerIndex {
        score := score + 1;
      }
    }

    /** `onNext`: ignored until an option is picked; then it moves to the
        next question with nothing picked, or, on the last question, only
        turns on the score view. */
    method OnNext()
      requires Valid() && |questions| > 0
      modifies this
      ensures Valid()
      ensures old(NextDisabled()) ==> unchanged(this)
      ensures !old(NextDisabled()) && old(currentIndex) + 1 < |questions| ==>
        && currentIndex == old(currentIndex) + 1
        && selectedOption == None
        && score == old(score)
        && showScore == old(showScore)
      ensures !old(NextDisabled()) && old(currentIndex) + 1 >= |questions| ==>
        && showScore
        && currentIndex == old(currentIndex)
        && selectedOption == old(selectedOption)
        && score == old(score)
      ensures !old(showScore) && !old(NextDisabled()) ==> !unchanged(this)
    {
      if selectedOption == None {
        return;
      }
      if currentIndex + 1 < |questions| {
        currentIndex := currentIndex + 1;
        selectedOption := None;
      } else {
        showScore := true;
      }
    }

    /** `onRestart`: back to the state the screen was opened in. */
    method OnRestart()
      modifies this
      ensures Valid()
      ensures currentIndex == 0 && score == 0 && selectedOption == None && !showScore
    {
      currentIndex := 0;
      score := 0;
      selectedOption := None;
      showScore := false;
    }

    /** The numerator of the progress bar: questions left behind plus the
        current one once answered. It never exceeds the number of
        questions, and it reaches it only when the last question has been
        answered. */
    function Progress(): (p: nat)
      reads this
      requires Valid() && |questions| > 0
      ensures p <= |questions|
      ensures p == |questions| <==> currentIndex == |questions| - 1 && selectedOption.Some?
      ensures score <= p
    {
      currentIndex + Answered()
    }
  }
}
