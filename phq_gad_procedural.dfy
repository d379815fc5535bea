/** The procedural terminal questionnaire (two copies of the same script in the
    repository, differing in variable names, one answer caption, and a closing "Press
    Enter to exit" prompt that only one copy has and that runs after the results are
    printed, so it does not affect the report): module-level
    loops read and sum nine PHQ-9 answers and then seven GAD-7 answers, and two inline
    threshold chains print the severity texts. */
module PhqGadProcedural {
  import opened Text
  import opened Scoring

  /** The whole script on one input stream. Each of the two `for` loops and the
      accumulation into the global totals are written out as in the script; only the
      `input()`/re-prompt pair, identical in every variant, is the shared `ReadChoice`. */
  method RunScript(inputs: seq<string>) returns (r: Option<Report>)
    ensures r.Some? <==> PHQ9_ITEMS + GAD7_ITEMS <= |Accepted(inputs)|
    ensures r.Some? ==>
              r.value == ScreeningReport(Accepted(inputs)[..PHQ9_ITEMS], Accepted(inputs)[PHQ9_ITEMS..PHQ9_ITEMS + GAD7_ITEMS])
  {
    var userScorePhq := 0;
    var userScoreGad := 0;
    var pos := 0;

    var q := 0;
    while q < PHQ9_ITEMS
      invariant q <= PHQ9_ITEMS && pos <= |inputs|
      invariant |Accepted(inputs[..pos])| == q
      invariant userScorePhq == Sum(Accepted(inputs[..pos]))
    {
      var found, userChoicePhq, next := ReadChoice(inputs, pos);
      if !found {
        return None;
      }
      SumAppend(Accepted(inputs[..pos]), [ChoiceValue(userChoicePhq)]);
      userScorePhq := userScorePhq + ChoiceValue(userChoicePhq);
      pos := next;
      q := q + 1;
    }
    ghost var phqAnswers := Accepted(inputs[..pos]);

    q := 0;
    while q < GAD7_ITEMS
      invariant q <= GAD7_ITEMS && pos <= |inputs|
      invariant |Accepted(inputs[..pos])| == PHQ9_ITEMS + q
      invariant Accepted(inputs[..pos])[..PHQ9_ITEMS] == phqAnswers
      invariant userScoreGad == Sum(Accepted(inputs[..pos])[PHQ9_ITEMS..])
    {
      var found, userChoiceGad, next := ReadChoice(inputs, pos);
      if !found {
        return None;
      }
      ghost var before := Accepted(inputs[..pos]);
      ghost var v := ChoiceValue(userChoiceGad);
      assert (before + [v])[PHQ9_ITEMS..] == before[PHQ9_ITEMS..] + [v];
      assert (before + [v])[..PHQ9_ITEMS] == before[..PHQ9_ITEMS];
      SumAppend(before[PHQ9_ITEMS..], [v]);
      userScoreGad := userScoreGad + ChoiceValue(userChoiceGad);
      pos := next;
      q := q + 1;
    }
    AcceptedPrefix(inputs, pos);
    ghost var all := Accepted(inputs);
    assert Accepted(inputs[..pos]) == all[..PHQ9_ITEMS + GAD7_ITEMS];
    assert phqAnswers == all[..PHQ9_ITEMS];
    assert Accepted(inputs[..pos])[PHQ9_ITEMS..] == all[PHQ9_ITEMS..PHQ9_ITEMS + GAD7_ITEMS];

    var phqText;
    if userScorePhq >= 20 {
      phqText := "Severe depression";
    } else if userScorePhq >= 15 {
      phqText := "Moderately severe depression";
    } else if userScorePhq >= 10 {
      phqText := "Moderate depression";
    } else if userScorePhq >= 5 {
      phqText := "Mild depression";
    } else {
      phqText := "Minimal depression";
    }

    var gadText;
    if userScoreGad >= 15 {
      gadText := "Severe anxiety";
    } else if userScoreGad >= 10 {
      gadText := "Moderate anxiety";
    } else if userScoreGad >= 5 {
      gadText := "Mild anxiety";
    } else {
      gadText := "Minimal anxiety";
    }

    r := Some(Report(userScorePhq, phqText, userScoreGad, gadText));
  }
}
