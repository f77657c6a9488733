/** The question card: a single-shot answer guard, the per-question reset, and the pure
    classification of the options, the feedback label, the difficulty badge and the controls
    shown before and after answering. Styles and icons are enums, not class names. */
module Card {
  import opened Wrappers
  import opened Types

  /** How an option button is styled. */
  datatype OptionStyle = Neutral | MarkedCorrect | ChosenWrong | Dimmed

  /** The icon beside an option. */
  datatype OptionIcon = OpenCircle | CheckMark | CrossMark | FadedCircle

  /** The colour of an option's label text. */
  datatype TextTone = Standard | GreenText | RedText

  /** The colour of the difficulty badge. */
  datatype BadgeColour = Green | Yellow | Red

  /** The controls below the options. */
  datatype Control = HintButton | HintPanel | SkipButton | FeedbackPanel | NextButton

  /** `getOptionStyles(idx)`: every option is neutral before submission; afterwards the correct
      index is marked correct whichever index was chosen, a chosen wrong index is marked wrong,
      and every other option is dimmed. */
  function StyleOf(hasSubmitted: bool, selectedIdx: Option<int>, correctIdx: int, idx: int): (s: OptionStyle)
    ensures s == Neutral <==> !hasSubmitted
    ensures hasSubmitted ==> (s == MarkedCorrect <==> idx == correctIdx)
    ensures hasSubmitted ==> (s == ChosenWrong <==> selectedIdx == Some(idx) && idx != correctIdx)
    ensures hasSubmitted ==> (s == Dimmed <==> idx != correctIdx && selectedIdx != Some(idx))
  {
    if !hasSubmitted then Neutral
    else if idx == correctIdx then MarkedCorrect
    else if selectedIdx == Some(idx) && idx != correctIdx then ChosenWrong
    else Dimmed
  }

  /** `getOptionIcon(idx)`: an open circle before submission; afterwards a check mark on the
      correct index, a cross on the chosen index when it is not the correct one, and a faded
      circle on every other option. */
  function IconOf(hasSubmitted: bool, selectedIdx: Option<int>, correctIdx: int, idx: int): (icon: OptionIcon)
    ensures icon == OpenCircle <==> !hasSubmitted
    ensures hasSubmitted ==> (icon == CheckMark <==> idx == correctIdx)
    ensures hasSubmitted ==> (icon == CrossMark <==> idx != correctIdx && selectedIdx == Some(idx))
    ensures hasSubmitted ==> (icon == FadedCircle <==> idx != correctIdx && selectedIdx != Some(idx))
  {
    if !hasSubmitted then OpenCircle
    else if idx == correctIdx then CheckMark
    else if selectedIdx == Some(idx) then CrossMark
    else FadedCircle
  }

  /** The label colour of an option (the class expression on its text span). */
  function ToneOf(hasSubmitted: bool, selectedIdx: Option<int>, correctIdx: int, idx: int): (tone: TextTone)
    ensures tone == GreenText <==> hasSubmitted && idx == correctIdx
    ensures tone == RedText <==> hasSubmitted && idx != correctIdx && selectedIdx == Some(idx)
    ensures tone == Standard <==> !hasSubmitted || (idx != correctIdx && selectedIdx != Some(idx))
  {
    if hasSubmitted && idx == correctIdx then GreenText
    else if hasSubmitted && selectedIdx == Some(idx) then RedText
    else Standard
  }

  /** The icon that goes with each style. */
  function IconForStyle(s: OptionStyle): (icon: OptionIcon)
  {
    match s
    case Neutral => OpenCircle
    case MarkedCorrect => CheckMark
    case ChosenWrong => CrossMark
    case Dimmed => FadedCircle
  }

  /** The label colour that goes with each style. */
  function ToneForStyle(s: OptionStyle): (tone: TextTone)
  {
    match s
    case Neutral => Standard
    case MarkedCorrect => GreenText
    case ChosenWrong => RedText
    case Dimmed => Standard
  }

  /** Icon, label colour and style of an option always agree. */
  lemma IconAndToneFollowStyle(hasSubmitted: bool, selectedIdx: Option<int>, correctIdx: int, idx: int)
    ensures IconOf(hasSubmitted, selectedIdx, correctIdx, idx) == IconForStyle(StyleOf(hasSubmitted, selectedIdx, correctIdx, idx))
    ensures ToneOf(hasSubmitted, selectedIdx, correctIdx, idx) == ToneForStyle(StyleOf(hasSubmitted, selectedIdx, correctIdx, idx))
  {
  }

  /** After submission, with the correct index among the n options, exactly that option is
      marked correct and at most the chosen one is marked wrong. */
  lemma OneOptionMarkedCorrect(n: nat, selectedIdx: Option<int>, correctIdx: int)
    requires 0 <= correctIdx < n
    ensures StyleOf(true, selectedIdx, correctIdx, correctIdx) == MarkedCorrect
    ensures forall i :: 0 <= i < n && i != correctIdx ==> StyleOf(true, selectedIdx, correctIdx, i) != MarkedCorrect
    ensures forall i :: 0 <= i < n && StyleOf(true, selectedIdx, correctIdx, i) == ChosenWrong ==> selectedIdx == Some(i)
  {
  }

  /** The index is never range-checked: when it lies outside the options, no option is marked
      correct after submission. */
  lemma OutOfRangeIndexMarksNothing(n: nat, selectedIdx: Option<int>, correctIdx: int)
    requires correctIdx < 0 || correctIdx >= n
    ensures forall i :: 0 <= i < n ==> StyleOf(true, selectedIdx, correctIdx, i) != MarkedCorrect
  {
  }

  const CorrectLabel := "Correct!"
  const ExplanationLabel := "Explanation:"

  /** The heading of the feedback panel. */
  function FeedbackLabel(selectedIdx: Option<int>, correctIdx: int): (heading: string)
    ensures heading == CorrectLabel <==> selectedIdx == Some(correctIdx)
    ensures heading == CorrectLabel || heading == ExplanationLabel
  {
    if selectedIdx == Some(correctIdx) then CorrectLabel else ExplanationLabel
  }

  /** The feedback heading says "Correct!" exactly when the chosen option is styled correct. */
  lemma FeedbackAgreesWithChosenStyle(idx: int, correctIdx: int)
    ensures FeedbackLabel(Some(idx), correctIdx) == CorrectLabel
      <==> StyleOf(true, Some(idx), correctIdx, idx) == MarkedCorrect
    ensures FeedbackLabel(Some(idx), correctIdx) == ExplanationLabel
      <==> StyleOf(true, Some(idx), correctIdx, idx) == ChosenWrong
  {
  }

  /** `toLowerCase` on the letters A-Z. */
  function LowerChar(c: char): char
  {
    if 'A' <= c <= 'Z' then (c as int + 32) as char else c
  }

  function Lower(s: string): (r: string)
    ensures |r| == |s| && forall i :: 0 <= i < |s| ==> r[i] == LowerChar(s[i])
  {
    seq(|s|, i requires 0 <= i < |s| => LowerChar(s[i]))
  }

  /** The difficulty badge: "easy" in any letter case is green, "medium" yellow, anything else red. */
  function BadgeColourOf(difficulty: string): (c: BadgeColour)
    ensures c == Green <==> Lower(difficulty) == "easy"
    ensures c == Yellow <==> Lower(difficulty) == "medium"
    ensures c == Red <==> Lower(difficulty) != "easy" && Lower(difficulty) != "medium"
  {
    if Lower(difficulty) == "easy" then Green
    else if Lower(difficulty) == "medium" then Yellow
    else Red
  }

  /** Two strings that differ only in letter case. */
  predicate SameIgnoringCase(a: string, b: string)
  {
    |a| == |b| && forall i :: 0 <= i < |a| ==> LowerChar(a[i]) == LowerChar(b[i])
  }

  /** The badge does not depend on letter case. */
  lemma BadgeIgnoresCase(a: string, b: string)
    requires SameIgnoringCase(a, b)
    ensures BadgeColourOf(a) == BadgeColourOf(b)
  {
    assert Lower(a) == Lower(b);
  }

  /** The labels the generator is asked for. */
  lemma BadgeOfGeneratedLabels()
    ensures BadgeColourOf("Easy") == Green && BadgeColourOf("EASY") == Green
    ensures BadgeColourOf("Medium") == Yellow
    ensures BadgeColourOf("Hard") == Red && BadgeColourOf("Mixed") == Red
  {
    assert Lower("Easy") == "easy";
    assert Lower("EASY") == "easy";
    assert Lower("Medium") == "medium";
    assert Lower("Hard")[0] == 'h';
    assert Lower("Mixed")[0] == 'm' && |Lower("Mixed")| == 5;
  }

  /** The controls on the card: the hint button (or the revealed hint) and the skip button
      only before submission, the feedback panel and the next button only after it. */
  function ControlsShown(hasSubmitted: bool, showHint: bool): (cs: set<Control>)
    ensures SkipButton in cs <==> !hasSubmitted
    ensures HintButton in cs <==> !hasSubmitted && !showHint
    ensures HintPanel in cs <==> !hasSubmitted && showHint
    ensures FeedbackPanel in cs <==> hasSubmitted
    ensures NextButton in cs <==> hasSubmitted
  {
    if hasSubmitted then {FeedbackPanel, NextButton}
    else if showHint then {HintPanel, SkipButton}
    else {HintButton, SkipButton}
  }

  /** Skip and Next are never offered together, and one of them is always offered. */
  lemma SkipXorNext(hasSubmitted: bool, showHint: bool)
    ensures (SkipButton in ControlsShown(hasSubmitted, showHint)) != (NextButton in ControlsShown(hasSubmitted, showHint))
  {
  }

  /** The card's local state for the question on screen. */
  class QuizCard {
    var question: QuizQuestion
    var selectedIdx: Option<int>
    var hasSubmitted: bool
    var showHint: bool

    /** An index is recorded exactly when the question has been answered. */
    ghost predicate Valid()
      reads this
    {
      hasSubmitted <==> selectedIdx.Some?
    }

    /** A card for a question: nothing selected, not submitted, hint hidden. */
    constructor (q: QuizQuestion)
      ensures Valid()
      ensures question == q && selectedIdx == None && !hasSubmitted && !showHint
    {
      question := q;
      selectedIdx := None;
      hasSubmitted := false;
      showHint := false;
    }

    /** The reset effect that runs when a new question is shown. */
    method QuestionChanged(q: QuizQuestion)
      modifies this
      ensures Valid()
      ensures question == q && selectedIdx == None && !hasSubmitted && !showHint
    {
      question := q;
      selectedIdx := None;
      hasSubmitted := false;
      showHint := false;
    }

    /** `handleSelect(idx)`: the first selection records the index, marks the question
        submitted and reports whether it was correct (the `onResult` call); every later
        selection is a no-op and reports nothing. */
    method HandleSelect(idx: int) returns (reported: Option<bool>)
      requires Valid()
      modifies this
      ensures Valid() && hasSubmitted
      ensures question == old(question) && showHint == old(showHint)
      ensures old(hasSubmitted) ==> reported == None && selectedIdx == old(selectedIdx)
      ensures !old(hasSubmitted) ==>
        reported == Some(idx == question.correctAnswerIndex) && selectedIdx == Some(idx)
      ensures !old(hasSubmitted) ==>
        Style(idx) == if idx == question.correctAnswerIndex then MarkedCorrect else ChosenWrong
    {
      if hasSubmitted {
        return None;
      }
      selectedIdx := Some(idx);
      hasSubmitted := true;
      reported := Some(idx == question.correctAnswerIndex);
    }

    /** The "Need a hint?" button. */
    method RevealHint()
      modifies this
      ensures showHint
      ensures question == old(question) && selectedIdx == old(selectedIdx) && hasSubmitted == old(hasSubmitted)
    {
      showHint := true;
    }

    /** The style of option `idx` in the current state. */
    function Style(idx: int): (s: OptionStyle)
      reads this
    {
      StyleOf(hasSubmitted, selectedIdx, question.correctAnswerIndex, idx)
    }
  }

  /** Two selections on one card report one result, the first one. */
  method SelectTwice(q: QuizQuestion, first: int, second: int) returns (r1: Option<bool>, r2: Option<bool>)
    ensures r1 == Some(first == q.correctAnswerIndex) && r2 == None
  {
    var card := new QuizCard(q);
    r1 := card.HandleSelect(first);
    r2 := card.HandleSelect(second);
  }
}
