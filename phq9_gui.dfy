/** The PHQ-9-only form: nine radio-button variables, Submit (check, sum, grade) and an
    unconditional Reset. */
module Phq9Gui {
  import opened Text
  import opened Scoring
  import PhqGadGui

  class PatientHealthQuestionnaire {
    var phq9Answers: seq<int>

    ghost predicate Valid()
      reads this
    {
      && |phq9Answers| == PHQ9_ITEMS
      && forall i :: 0 <= i < |phq9Answers| ==> PhqGadGui.IsAnswerState(phq9Answers[i])
    }

    /** All nine variables start at UNANSWERED. */
    constructor ()
      ensures Valid()
      ensures forall i :: 0 <= i < |phq9Answers| ==> phq9Answers[i] == UNANSWERED
    {
      phq9Answers := seq(PHQ9_ITEMS, _ => UNANSWERED);
    }

    /** Clicking response `value` of item `item`. */
    method Select(item: nat, value: int)
      requires Valid() && item < PHQ9_ITEMS && IsItemScore(value)
      modifies this
      ensures Valid() && phq9Answers == old(phq9Answers)[item := value]
    {
      phq9Answers := phq9Answers[item := value];
    }

    /** `calculate_scores`: None (the warning) exactly when an item is unanswered;
        otherwise the total, which lies in [0, 27], and its severity text. */
    method CalculateScores() returns (r: Option<(int, string)>)
      requires Valid()
      ensures r.None? <==> UNANSWERED in phq9Answers
      ensures r.Some? ==> r.value.0 == Sum(phq9Answers) && 0 <= r.value.0 <= 27
      ensures r.Some? ==> r.value.1 == PhqLabel(PhqBandOf(r.value.0))
    {
      var k := 0;
      while k < |phq9Answers|
        invariant k <= |phq9Answers|
        invariant UNANSWERED !in phq9Answers[..k]
      {
        if phq9Answers[k] == UNANSWERED {
          return None;
        }
        k := k + 1;
      }
      assert phq9Answers[..k] == phq9Answers;

      var totalScore := 0;
      k := 0;
      while k < |phq9Answers|
        invariant k <= |phq9Answers|
        invariant totalScore == Sum(phq9Answers[..k])
      {
        assert phq9Answers[..k + 1][..k] == phq9Answers[..k];
        totalScore := totalScore + phq9Answers[k];
        k := k + 1;
      }
      assert phq9Answers[..k] == phq9Answers;
      SumBounds(phq9Answers);
      r := Some((totalScore, CalculateSeverity(totalScore)));
    }

    /** `calculate_severity`: this form's own threshold chain. */
    function CalculateSeverity(totalScore: int): (severityRating: string)
      ensures severityRating == PhqLabel(PhqBandOf(totalScore))
    {
      if totalScore >= 20 then "Severe depression"
      else if totalScore >= 15 then "Moderately severe depression"
      else if totalScore >= 10 then "Moderate depression"
      else if totalScore >= 5 then "Mild depression"
      else "Minimal depression"
    }

    /** `reset_form`: no confirmation here; every variable goes back to UNANSWERED. */
    method ResetForm()
      requires Valid()
      modifies this
      ensures Valid()
      ensures forall i :: 0 <= i < |phq9Answers| ==> phq9Answers[i] == UNANSWERED
    {
      var k := 0;
      while k < |phq9Answers|
        invariant Valid()
        invariant k <= |phq9Answers|
        invariant forall i :: 0 <= i < k ==> phq9Answers[i] == UNANSWERED
      {
        phq9Answers := phq9Answers[k := UNANSWERED];
        k := k + 1;
      }
    }
  }
}
