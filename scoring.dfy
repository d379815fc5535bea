/** The one scoring rule the five questionnaire programs share: every item is answered
    0..3, the answers are summed, and the total is mapped to a severity band by the published
    cut-points (PHQ-9: 5/10/15/20, Kroenke, Spitzer & Williams 2001;
    GAD-7: 5/10/15, Spitzer et al. 2006). */
module Scoring {

  const PHQ9_ITEMS: nat := 9
  const GAD7_ITEMS: nat := 7

  /** The value an untouched radio-button variable holds. */
  const UNANSWERED: int := -1

  const PHQ9_SEVERE: int := 20
  const PHQ9_MODERATELY_SEVERE: int := 15
  const PHQ9_MODERATE: int := 10
  const PHQ9_MILD: int := 5

  const GAD7_SEVERE: int := 15
  const GAD7_MODERATE: int := 10
  const GAD7_MILD: int := 5

  datatype PhqBand = MinimalDepression | MildDepression | ModerateDepression
                   | ModeratelySevereDepression | SevereDepression

  datatype GadBand = MinimalAnxiety | MildAnxiety | ModerateAnxiety | SevereAnxiety

  /** An answer a radio button or a typed choice can produce. */
  predicate IsItemScore(v: int) {
    0 <= v <= 3
  }

  /** The PHQ-9 band of a total, by the published score ranges
      0-4, 5-9, 10-14, 15-19 and 20 or more. */
  function PhqBandOf(score: int): (b: PhqBand)
    ensures b == MinimalDepression <==> score <= 4
    ensures b == MildDepression <==> 5 <= score <= 9
    ensures b == ModerateDepression <==> 10 <= score <= 14
    ensures b == ModeratelySevereDepression <==> 15 <= score <= 19
    ensures b == SevereDepression <==> 20 <= score
  {
    if score >= PHQ9_SEVERE then SevereDepression
    else if score >= PHQ9_MODERATELY_SEVERE then ModeratelySevereDepression
    else if score >= PHQ9_MODERATE then ModerateDepression
    else if score >= PHQ9_MILD then MildDepression
    else MinimalDepression
  }

  /** The GAD-7 band of a total, by the published ranges 0-4, 5-9, 10-14 and 15 or more. */
  function GadBandOf(score: int): (b: GadBand)
    ensures b == MinimalAnxiety <==> score <= 4
    ensures b == MildAnxiety <==> 5 <= score <= 9
    ensures b == ModerateAnxiety <==> 10 <= score <= 14
    ensures b == SevereAnxiety <==> 15 <= score
  {
    if score >= GAD7_SEVERE then SevereAnxiety
    else if score >= GAD7_MODERATE then ModerateAnxiety
    else if score >= GAD7_MILD then MildAnxiety
    else MinimalAnxiety
  }

  /** Position of a band in order of severity. */
  function PhqRank(b: PhqBand): nat {
    match b
    case MinimalDepression => 0
    case MildDepression => 1
    case ModerateDepression => 2
    case ModeratelySevereDepression => 3
    case SevereDepression => 4
  }

  function GadRank(b: GadBand): nat {
    match b
    case MinimalAnxiety => 0
    case MildAnxiety => 1
    case ModerateAnxiety => 2
    case SevereAnxiety => 3
  }

  /** A higher total never yields a milder band. */
  lemma PhqBandMonotone(a: int, b: int)
    requires a <= b
    ensures PhqRank(PhqBandOf(a)) <= PhqRank(PhqBandOf(b))
  {
  }

  lemma GadBandMonotone(a: int, b: int)
    requires a <= b
    ensures GadRank(GadBandOf(a)) <= GadRank(GadBandOf(b))
  {
  }

  /** The text each program shows for a band. */
  function PhqLabel(b: PhqBand): string {
    match b
    case SevereDepression => "Severe depression"
    case ModeratelySevereDepression => "Moderately severe depression"
    case ModerateDepression => "Moderate depression"
    case MildDepression => "Mild depression"
    case MinimalDepression => "Minimal depression"
  }

  function GadLabel(b: GadBand): string {
    match b
    case SevereAnxiety => "Severe anxiety"
    case ModerateAnxiety => "Moderate anxiety"
    case MildAnxiety => "Mild anxiety"
    case MinimalAnxiety => "Minimal anxiety"
  }

  /** Sum of the answers, accumulated left to right as the programs' loops do. */
  function Sum(s: seq<int>): int {
    if s == [] then 0 else Sum(s[..|s| - 1]) + s[|s| - 1]
  }

  /** Adding one more answer adds its value to the total. */
  lemma SumSnoc(s: seq<int>, v: int)
    ensures Sum(s + [v]) == Sum(s) + v
  {
    assert (s + [v])[..|s|] == s;
  }

  /** Answers in 0..3 give a total in 0..3n; hence PHQ-9 totals lie in [0, 27] and GAD-7
      totals in [0, 21]. */
  lemma {:induction false} SumBounds(s: seq<int>)
    requires forall i :: 0 <= i < |s| ==> IsItemScore(s[i])
    ensures 0 <= Sum(s) <= 3 * |s|
  {
    if s != [] {
      SumBounds(s[..|s| - 1]);
    }
  }

  lemma {:induction false} SumAppend(a: seq<int>, b: seq<int>)
    ensures Sum(a + b) == Sum(a) + Sum(b)
  {
    if b != [] {
      assert (a + b)[..|a + b| - 1] == a + b[..|b| - 1];
      SumAppend(a, b[..|b| - 1]);
    } else {
      assert a + b == a;
    }
  }

  // ---- typed answers (the terminal programs) ----

  /** The only inputs the terminal programs accept. */
  const CHOICES: seq<string> := ["0", "1", "2", "3"]

  /** `int(choice)` for an accepted choice. */
  function ChoiceValue(choice: string): (v: int)
    requires choice in CHOICES
    ensures IsItemScore(v) && CHOICES[v] == choice
  {
    choice[0] as int - '0' as int
  }

  /** The values of the accepted inputs, in the order typed; every other input is a
      re-prompt that contributes nothing. */
  function Accepted(inputs: seq<string>): (answers: seq<int>)
    ensures |answers| <= |inputs|
    ensures forall i :: 0 <= i < |answers| ==> IsItemScore(answers[i])
  {
    if inputs == [] then []
    else
      var last := inputs[|inputs| - 1];
      Accepted(inputs[..|inputs| - 1]) + (if last in CHOICES then [ChoiceValue(last)] else [])
  }

  /** Reading a stream in two parts accepts the same answers as reading it at once. */
  lemma {:induction false} AcceptedConcat(a: seq<string>, b: seq<string>)
    ensures Accepted(a + b) == Accepted(a) + Accepted(b)
  {
    if b != [] {
      assert (a + b)[..|a + b| - 1] == a + b[..|b| - 1];
      assert (a + b)[|a + b| - 1] == b[|b| - 1];
      AcceptedConcat(a, b[..|b| - 1]);
    } else {
      assert a + b == a;
    }
  }

  /** What a program reads up to some point is a prefix of what it reads altogether. */
  lemma {:induction false} AcceptedPrefix(inputs: seq<string>, k: nat)
    requires k <= |inputs|
    ensures Accepted(inputs[..k]) <= Accepted(inputs)
  {
    var front, back := inputs[..k], inputs[k..];
    assert front + back == inputs;
    AcceptedConcat(front, back);
    assert Accepted(inputs) == Accepted(front) + Accepted(back);
  }

  /** Reading one more input extends the accepted answers by that input's value, if any. */
  lemma AcceptedStep(inputs: seq<string>, k: nat)
    requires 0 < k <= |inputs|
    ensures Accepted(inputs[..k]) ==
            Accepted(inputs[..k - 1]) + (if inputs[k - 1] in CHOICES then [ChoiceValue(inputs[k - 1])] else [])
  {
    assert inputs[..k][..k - 1] == inputs[..k - 1];
  }

  /** An input outside "0".."3" is a re-prompt: removing it changes no accepted answer. */
  lemma AcceptedSkipsInvalid(before: seq<string>, bad: string, after: seq<string>)
    requires bad !in CHOICES
    ensures Accepted(before + [bad] + after) == Accepted(before + after)
  {
    AcceptedConcat(before + [bad], after);
    AcceptedConcat(before, [bad]);
    AcceptedConcat(before, after);
    assert Accepted([bad]) == [] by {
      assert [bad][..0] == [];
    }
  }

  /** What a terminal run shows at the end: both totals and both severity texts. */
  datatype Report = Report(phqScore: int, phqLabel: string, gadScore: int, gadLabel: string)

  /** The report for a PHQ-9 answer list and a GAD-7 answer list. */
  function ScreeningReport(phq: seq<int>, gad: seq<int>): (r: Report)
    requires |phq| == PHQ9_ITEMS && |gad| == GAD7_ITEMS
    requires forall i :: 0 <= i < |phq| ==> IsItemScore(phq[i])
    requires forall i :: 0 <= i < |gad| ==> IsItemScore(gad[i])
    ensures 0 <= r.phqScore <= 27 && 0 <= r.gadScore <= 21
    ensures r.phqScore == Sum(phq) && r.gadScore == Sum(gad)
    ensures r.phqLabel == PhqLabel(PhqBandOf(r.phqScore)) && r.gadLabel == GadLabel(GadBandOf(r.gadScore))
  {
    SumBounds(phq);
    SumBounds(gad);
    Report(Sum(phq), PhqLabel(PhqBandOf(Sum(phq))), Sum(gad), GadLabel(GadBandOf(Sum(gad))))
  }

  /** One `input()` followed by the re-prompt loop that every terminal variant writes
      after it, reading from position `pos`: either an accepted line is found, having skipped only rejected lines,
      or the input runs out. */
  method ReadChoice(inputs: seq<string>, pos: nat) returns (found: bool, choice: string, next: nat)
    requires pos <= |inputs|
    ensures pos <= next <= |inputs|
    ensures found ==> pos < next && choice == inputs[next - 1] && choice in CHOICES
    ensures found ==> Accepted(inputs[..next]) == Accepted(inputs[..pos]) + [ChoiceValue(choice)]
    ensures !found ==> next == |inputs| && Accepted(inputs) == Accepted(inputs[..pos])
  {
    next := pos;
    if next == |inputs| {
      assert inputs[..next] == inputs;
      return false, [], next;
    }
    choice := inputs[next];
    next := next + 1;
    AcceptedStep(inputs, next);
    while choice !in CHOICES
      invariant pos < next <= |inputs| && choice == inputs[next - 1]
      invariant Accepted(inputs[..next]) ==
                Accepted(inputs[..pos]) + (if choice in CHOICES then [ChoiceValue(choice)] else [])
      decreases |inputs| - next
    {
      if next == |inputs| {
        assert inputs[..next] == inputs;
        return false, choice, next;
      }
      choice := inputs[next];
      next := next + 1;
      AcceptedStep(inputs, next);
    }
    found := true;
  }
}
