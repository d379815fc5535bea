/** The function-structured terminal questionnaire: `ask_questions` reads one accepted
    answer per question (re-prompting on anything else) and sums them; `phq_results` and
    `gad_results` turn a total into its severity text; `main` runs PHQ-9 then GAD-7 on one
    input stream. Typed input is a sequence of lines; running out of lines stands for
    `input()` raising EOFError. */
module PhqGadFunction {
  import opened Text
  import opened Scoring

  datatype Outcome = Answered(score: int, used: nat) | EndOfInput

  /** `ask_questions` over a list of `questionCount` questions. On success the score is
      the sum of the first `questionCount` accepted answers, and `used` lines have been
      read, the last of which was the final accepted answer. */
  method AskQuestions(questionCount: nat, inputs: seq<string>) returns (o: Outcome)
    ensures o.Answered? <==> questionCount <= |Accepted(inputs)|
    ensures o.Answered? ==> o.used <= |inputs| && Accepted(inputs[..o.used]) == Accepted(inputs)[..questionCount]
    ensures o.Answered? ==> o.score == Sum(Accepted(inputs)[..questionCount])
    ensures o.Answered? ==> 0 <= o.score <= 3 * questionCount
    ensures o.Answered? && questionCount > 0 ==> 0 < o.used && inputs[o.used - 1] in CHOICES
    ensures questionCount == 0 ==> o == Answered(0, 0)
  {
    var userScore := 0;
    var pos := 0;
    var q := 0;
    while q < questionCount
      invariant q <= questionCount && pos <= |inputs|
      invariant |Accepted(inputs[..pos])| == q
      invariant userScore == Sum(Accepted(inputs[..pos]))
      invariant q > 0 ==> 0 < pos && inputs[pos - 1] in CHOICES
      invariant q == 0 ==> pos == 0 && userScore == 0
    {
      var found, userChoice, next := ReadChoice(inputs, pos);
      if !found {
        assert |Accepted(inputs)| == q;
        return EndOfInput;
      }
      var value := ChoiceValue(userChoice);
      SumSnoc(Accepted(inputs[..pos]), value);
      userScore := userScore + value;
      pos := next;
      q := q + 1;
    }
    AnsweredPrefix(inputs, pos, questionCount, userScore);
    return Answered(userScore, pos);
  }

  /** When the answers read from the first `pos` lines number `n`, they are the first `n`
      accepted answers of the whole input, and their sum is a valid total. */
  lemma AnsweredPrefix(inputs: seq<string>, pos: nat, n: nat, score: int)
    requires pos <= |inputs| && |Accepted(inputs[..pos])| == n && score == Sum(Accepted(inputs[..pos]))
    ensures n <= |Accepted(inputs)| && Accepted(inputs[..pos]) == Accepted(inputs)[..n]
    ensures score == Sum(Accepted(inputs)[..n]) && 0 <= score <= 3 * n
  {
    AcceptedPrefix(inputs, pos);
    SumBounds(Accepted(inputs[..pos]));
  }

  /** `phq_results`: the severity text printed for a PHQ-9 total. */
  function PhqResults(userScore: int): (text: string)
    ensures text == PhqLabel(PhqBandOf(userScore))
  {
    if userScore >= 20 then "Severe depression"
    else if userScore >= 15 then "Moderately severe depression"
    else if userScore >= 10 then "Moderate depression"
    else if userScore >= 5 then "Mild depression"
    else "Minimal depression"
  }

  /** `gad_results`: the severity text printed for a GAD-7 total. */
  function GadResults(userScore: int): (text: string)
    ensures text == GadLabel(GadBandOf(userScore))
  {
    if userScore >= 15 then "Severe anxiety"
    else if userScore >= 10 then "Moderate anxiety"
    else if userScore >= 5 then "Mild anxiety"
    else "Minimal anxiety"
  }

  /** `main`: nine PHQ-9 questions, then seven GAD-7 questions on the remaining input, then
      both results. The first nine accepted answers are the PHQ-9 answers and the next seven
      the GAD-7 answers. */
  method RunQuestionnaire(inputs: seq<string>) returns (r: Option<Report>)
    ensures r.Some? <==> PHQ9_ITEMS + GAD7_ITEMS <= |Accepted(inputs)|
    ensures r.Some? ==>
              r.value == ScreeningReport(Accepted(inputs)[..PHQ9_ITEMS], Accepted(inputs)[PHQ9_ITEMS..PHQ9_ITEMS + GAD7_ITEMS])
  {
    var phq := AskQuestions(PHQ9_ITEMS, inputs);
    if phq.EndOfInput? {
      return None;
    }
    var rest := inputs[phq.used..];
    AcceptedConcat(inputs[..phq.used], rest);
    assert inputs[..phq.used] + rest == inputs;
    var gad := AskQuestions(GAD7_ITEMS, rest);
    if gad.EndOfInput? {
      return None;
    }
    var all := Accepted(inputs);
    assert Accepted(rest) == all[PHQ9_ITEMS..];
    assert Accepted(rest)[..GAD7_ITEMS] == all[PHQ9_ITEMS..PHQ9_ITEMS + GAD7_ITEMS];
    r := Some(Report(phq.score, PhqResults(phq.score), gad.score, GadResults(gad.score)));
  }
}
