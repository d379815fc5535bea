/** The combined PHQ-9 / GAD-7 form: sixteen radio-button variables, each holding the
    index of the chosen response or UNANSWERED; Submit checks that every item is answered,
    sums each questionnaire and grades both totals; Reset (after confirmation) clears the
    form. */
module PhqGadGui {
  import opened Text
  import opened Scoring

  /** What a radio-button variable can hold: its initial value or a response index. */
  predicate IsAnswerState(v: int) {
    v == UNANSWERED || IsItemScore(v)
  }

  class PatientHealthQuestionnaire {
    var phq9Answers: seq<int>
    var gad7Answers: seq<int>

    ghost predicate Valid()
      reads this
    {
      && |phq9Answers| == PHQ9_ITEMS && |gad7Answers| == GAD7_ITEMS
      && (forall i :: 0 <= i < |phq9Answers| ==> IsAnswerState(phq9Answers[i]))
      && (forall i :: 0 <= i < |gad7Answers| ==> IsAnswerState(gad7Answers[i]))
    }

    /** Every variable is created holding UNANSWERED, so no response is selected. */
    constructor ()
      ensures Valid()
      ensures forall i :: 0 <= i < |phq9Answers| ==> phq9Answers[i] == UNANSWERED
      ensures forall i :: 0 <= i < |gad7Answers| ==> gad7Answers[i] == UNANSWERED
    {
      phq9Answers := seq(PHQ9_ITEMS, _ => UNANSWERED);
      gad7Answers := seq(GAD7_ITEMS, _ => UNANSWERED);
    }

    /** Clicking response `value` of PHQ-9 item `item`. */
    method SelectPhq(item: nat, value: int)
      requires Valid() && item < PHQ9_ITEMS && IsItemScore(value)
      modifies this
      ensures Valid()
      ensures phq9Answers == old(phq9Answers)[item := value] && gad7Answers == old(gad7Answers)
    {
      phq9Answers := phq9Answers[item := value];
    }

    /** Clicking response `value` of GAD-7 item `item`. */
    method SelectGad(item: nat, value: int)
      requires Valid() && item < GAD7_ITEMS && IsItemScore(value)
      modifies this
      ensures Valid()
      ensures gad7Answers == old(gad7Answers)[item := value] && phq9Answers == old(phq9Answers)
    {
      gad7Answers := gad7Answers[item := value];
    }

    /** `calculate_scores`: None is the "Please answer all questions" warning, given
        exactly when some item of either questionnaire is unanswered; otherwise both totals
        and their severity texts. */
    method CalculateScores() returns (r: Option<Report>)
      requires Valid()
      ensures r.None? <==> UNANSWERED in phq9Answers + gad7Answers
      ensures r.Some? ==> r.value == ScreeningReport(phq9Answers, gad7Answers)
    {
      var all := phq9Answers + gad7Answers;
      var k := 0;
      while k < |all|
        invariant k <= |all|
        invariant UNANSWERED !in all[..k]
      {
        if all[k] == UNANSWERED {
          return None;
        }
        k := k + 1;
      }
      assert all[..k] == all;
      assert forall i :: 0 <= i < |phq9Answers| ==> phq9Answers[i] == all[i];
      assert forall i :: 0 <= i < |gad7Answers| ==> gad7Answers[i] == all[PHQ9_ITEMS + i];

      var totalPhqScore := 0;
      k := 0;
      while k < |phq9Answers|
        invariant k <= |phq9Answers|
        invariant totalPhqScore == Sum(phq9Answers[..k])
      {
        assert phq9Answers[..k + 1][..k] == phq9Answers[..k];
        totalPhqScore := totalPhqScore + phq9Answers[k];
        k := k + 1;
      }
      assert phq9Answers[..k] == phq9Answers;

      var totalGadScore := 0;
      k := 0;
      while k < |gad7Answers|
        invariant k <= |gad7Answers|
        invariant totalGadScore == Sum(gad7Answers[..k])
      {
        assert gad7Answers[..k + 1][..k] == gad7Answers[..k];
        totalGadScore := totalGadScore + gad7Answers[k];
        k := k + 1;
      }
      assert gad7Answers[..k] == gad7Answers;

      var ratings := CalculateSeverity(totalPhqScore, totalGadScore);
      r := Some(Report(totalPhqScore, ratings.0, totalGadScore, ratings.1));
    }

    /** `calculate_severity`: the two severity texts, by the form's own threshold chain. */
    function CalculateSeverity(totalPhqScore: int, totalGadScore: int): (ratings: (string, string))
      ensures ratings.0 == PhqLabel(PhqBandOf(totalPhqScore))
      ensures ratings.1 == GadLabel(GadBandOf(totalGadScore))
    {
      var phqSeverityRating :=
        if totalPhqScore >= PHQ9_SEVERE then "Severe depression"
        else if totalPhqScore >= PHQ9_MODERATELY_SEVERE then "Moderately severe depression"
        else if totalPhqScore >= PHQ9_MODERATE then "Moderate depression"
        else if totalPhqScore >= PHQ9_MILD then "Mild depression"
        else "Minimal depression";
      var gadSeverityRating :=
        if totalGadScore >= GAD7_SEVERE then "Severe anxiety"
        else if totalGadScore >= GAD7_MODERATE then "Moderate anxiety"
        else if totalGadScore >= GAD7_MILD then "Mild anxiety"
        else "Minimal anxiety";
      (phqSeverityRating, gadSeverityRating)
    }

    /** `reset_form`: `confirmed` is the answer to the OK/Cancel dialog. OK sets all sixteen
        variables back to UNANSWERED; Cancel changes nothing. */
    method ResetForm(confirmed: bool)
      requires Valid()
      modifies this
      ensures Valid()
      ensures confirmed ==> forall i :: 0 <= i < |phq9Answers| ==> phq9Answers[i] == UNANSWERED
      ensures confirmed ==> forall i :: 0 <= i < |gad7Answers| ==> gad7Answers[i] == UNANSWERED
      ensures !confirmed ==> phq9Answers == old(phq9Answers) && gad7Answers == old(gad7Answers)
    {
      if confirmed {
        var k := 0;
        while k < |phq9Answers|
          invariant Valid()
          invariant k <= |phq9Answers|
          invariant forall i :: 0 <= i < k ==> phq9Answers[i] == UNANSWERED
        {
          phq9Answers := phq9Answers[k := UNANSWERED];
          k := k + 1;
        }
        k := 0;
        while k < |gad7Answers|
          invariant Valid()
          invariant k <= |gad7Answers|
          invariant forall i :: 0 <= i < |phq9Answers| ==> phq9Answers[i] == UNANSWERED
          invariant forall i :: 0 <= i < k ==> gad7Answers[i] == UNANSWERED
        {
          gad7Answers := gad7Answers[k := UNANSWERED];
          k := k + 1;
        }
      }
    }
  }

  /** A form just opened, or just reset, cannot be scored: the warning is always shown. */
  lemma FreshFormIsIncomplete(phq9Answers: seq<int>, gad7Answers: seq<int>)
    requires |phq9Answers| == PHQ9_ITEMS
    requires forall i :: 0 <= i < |phq9Answers| ==> phq9Answers[i] == UNANSWERED
    ensures UNANSWERED in phq9Answers + gad7Answers
  {
    assert (phq9Answers + gad7Answers)[0] == UNANSWERED;
  }
}
