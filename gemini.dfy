/** The question provider: prompt building around the hosted model client, validation of its
    reply, and the best-effort trending-topics request. The client call and the JSON parser are
    parameters of the operations: `client` maps a prompt to what the awaited call did, `parse`
    maps the reply text to what `JSON.parse` did. */
module Gemini {
  import opened Wrappers
  import opened Types

  /** What the awaited `generateContent` call did: it threw, or it replied with an optional text. */
  datatype ClientCall = Threw(error: string) | Replied(text: Option<string>)

  /** The object `JSON.parse` produced from a question reply; `options` may be missing. */
  datatype RawQuestion = RawQuestion(
    question: string,
    options: Option<seq<string>>,
    correctAnswerIndex: int,
    explanation: string,
    difficulty: string,
    hint: string)

  /** A suggested topic, as the trending-topics request returns it (`name` is the source's `label`). */
  datatype TopicSuggestion = TopicSuggestion(name: string, category: string)

  const RandomDifficultySentence := "The difficulty can be random (Easy, Medium, or Hard)."
  const FixedDifficultyLead := "The difficulty level must be specifically "
  const HistoryHeader :=
    "\nIMPORTANT: Do not repeat or rephrase any of the following previously asked questions:\n"
  const BulletSeparator := "\n- "
  const PromptLead := "Generate a single multiple-choice question about "
  const PromptTail :=
    "\n  The question should be engaging and educational.\n  \n  IMPORTANT FORMATTING INSTRUCTIONS:\n"
    + "  - If the question involves mathematics, physics, or chemistry formulas, YOU MUST use LaTeX formatting.\n"
    + "  - Use single dollar signs ($) for inline math (e.g. $E=mc^2$ or $\\frac{1}{2}$).\n"
    + "  - Use double dollar signs ($$) for block/display equations.\n"
    + "  - Do NOT use markdown code blocks for math.\n\n"
    + "  Provide 4 distinct options.\n"
    + "  Indicate the correct answer index (0-3).\n"
    + "  Provide a brief, helpful explanation for why the answer is correct (use LaTeX here too if needed).\n"
    + "  Provide a subtle hint that helps the user deduce the answer without explicitly stating it.\n  "
  const TrendingPrompt :=
    "Generate 4 distinct, currently trending or universally popular quiz topics.\n"
    + "  Focus on a mix of current events, pop culture (movies, music), technology trends, and engaging history/science.\n"
    + "  Return a JSON array where each object has a 'label' (max 3 words, e.g. \"Artificial Intelligence\", "
    + "\"Oscars 2024\", \"Ancient Rome\") and a 'category' (one of: 'Science', 'History', 'Technology', "
    + "'Entertainment', 'Sports', 'Geography', 'Arts', 'Literature')."
  const NoTextMessage := "No response text from Gemini"
  const InvalidOptionsMessage := "Invalid number of options returned"

  /** `s` wrapped in double quotes. */
  function Quoted(s: string): (r: string) { "\"" + s + "\"" }

  /** The sentence that tells the generator which difficulty to use. */
  function DifficultyPrompt(difficulty: string): (r: string)
    ensures r == RandomDifficultySentence <==> difficulty == MixedDifficulty
    ensures difficulty != MixedDifficulty ==>
      |r| == |FixedDifficultyLead| + |difficulty| + 3
      && r[..|FixedDifficultyLead|] == FixedDifficultyLead
      && r[|FixedDifficultyLead|..|r| - 1] == Quoted(difficulty)
      && r[|r| - 1] == '.'
  {
    if difficulty == MixedDifficulty then RandomDifficultySentence
    else
      var r := FixedDifficultyLead + Quoted(difficulty) + ".";
      assert r[15] == 'l' && RandomDifficultySentence[15] == 'c';
      assert r[|FixedDifficultyLead|..|r| - 1] == Quoted(difficulty);
      r
  }

  /** `Array.prototype.join` on strings. */
  function Join(parts: seq<string>, sep: string): (r: string)
  {
    if |parts| == 0 then ""
    else if |parts| == 1 then parts[0]
    else parts[0] + sep + Join(parts[1..], sep)
  }

  /** Reference layout of the history list: every entry on its own line, prefixed by "- ". */
  function Bulleted(entries: seq<string>): (r: string)
  {
    if entries == [] then "" else "- " + entries[0] + "\n" + Bulleted(entries[1..])
  }

  /** Joining with the bullet separator between a leading "- " and a trailing newline
      gives one bulleted line per entry. */
  lemma {:induction false} JoinIsBulleted(entries: seq<string>)
    requires entries != []
    ensures "- " + Join(entries, BulletSeparator) + "\n" == Bulleted(entries)
  {
    if |entries| == 1 {
      assert Bulleted(entries[1..]) == "";
    } else {
      var rest := entries[1..];
      JoinIsBulleted(rest);
      calc {
        "- " + Join(entries, BulletSeparator) + "\n";
        "- " + (entries[0] + BulletSeparator + Join(rest, BulletSeparator)) + "\n";
        ("- " + entries[0] + "\n") + ("- " + Join(rest, BulletSeparator) + "\n");
        ("- " + entries[0] + "\n") + Bulleted(rest);
      }
    }
  }

  /** Every entry appears, in order, as its own bulleted line. */
  lemma {:induction false} BulletedAt(entries: seq<string>, k: nat)
    requires k < |entries|
    ensures Bulleted(entries) == Bulleted(entries[..k]) + ("- " + entries[k] + "\n") + Bulleted(entries[k + 1..])
  {
    if k == 0 {
      assert entries[..0] == [];
    } else {
      var rest := entries[1..];
      BulletedAt(rest, k - 1);
      assert rest[..k - 1] == entries[1..k];
      assert rest[k..] == entries[k + 1..];
      assert entries[..k][1..] == entries[1..k];
      assert Bulleted(entries[..k]) == "- " + entries[0] + "\n" + Bulleted(entries[1..k]);
    }
  }

  /** The "avoid repeating" section of the prompt. */
  function HistoryContext(previous: seq<string>): (r: string)
    ensures r == "" <==> previous == []
    ensures previous != [] ==> r == HistoryHeader + Bulleted(previous)
  {
    if |previous| > 0 then
      JoinIsBulleted(previous);
      HistoryHeader + "- " + Join(previous, BulletSeparator) + "\n"
    else ""
  }

  /** The middle piece of a concatenation is found at the offset of the first piece. */
  lemma SliceOfConcat(a: string, b: string, c: string)
    ensures (a + b + c)[|a|..|a| + |b|] == b
  {
    assert (a + b + c)[|a|..|a| + |b|] == (a + b)[|a|..];
  }

  /** Concatenation regrouped. */
  lemma Regroup(a: string, b: string, c: string, d: string)
    ensures a + (b + c + d) == (a + b) + c + d
  {
  }

  /** Slicing inside the left operand of a concatenation. */
  lemma SliceOfLeft(x: string, y: string, i: nat, j: nat)
    requires i <= j <= |x|
    ensures (x + y)[i..j] == x[i..j]
  {
  }

  /** Taking a prefix inside the left operand of a concatenation. */
  lemma PrefixOfLeft(x: string, y: string, j: nat)
    requires j <= |x|
    ensures (x + y)[..j] == x[..j]
  {
  }

  /** The right operand of a concatenation. */
  lemma RightOperand(x: string, y: string)
    ensures (x + y)[|x|..|x| + |y|] == y
    ensures (x + y)[|x|..] == y
  {
  }

  /** Where each of seven concatenated pieces sits. */
  lemma PiecesAt(a: string, b: string, c: string, d: string, e: string, f: string, g: string)
    ensures var r := a + b + c + d + e + f + g;
      && r[..|a|] == a
      && r[|a|..|a| + |b|] == b
      && r[|a| + |b| + |c|..|a| + |b| + |c| + |d|] == d
      && r[|a| + |b| + |c| + |d| + |e|..|a| + |b| + |c| + |d| + |e| + |f|] == f
      && r[|r| - |g|..] == g
  {
    var ab := a + b;
    var abc := ab + c;
    var abcd := abc + d;
    var abcde := abcd + e;
    var abcdef := abcde + f;
    var r := abcdef + g;
    RightOperand(abcdef, g);
    RightOperand(abcde, f);
    SliceOfLeft(abcdef, g, |abcde|, |abcdef|);
    RightOperand(abc, d);
    SliceOfLeft(abcde, f, |abc|, |abcd|);
    SliceOfLeft(abcdef, g, |abc|, |abcd|);
    SliceOfLeft(abcd, e, |abc|, |abcd|);
    RightOperand(a, b);
    SliceOfLeft(ab, c, |a|, |ab|);
    SliceOfLeft(abc, d, |a|, |ab|);
    SliceOfLeft(abcd, e, |a|, |ab|);
    SliceOfLeft(abcde, f, |a|, |ab|);
    SliceOfLeft(abcdef, g, |a|, |ab|);
    PrefixOfLeft(a, b, |a|);
    PrefixOfLeft(ab, c, |a|);
    PrefixOfLeft(abc, d, |a|);
    PrefixOfLeft(abcd, e, |a|);
    PrefixOfLeft(abcde, f, |a|);
    PrefixOfLeft(abcdef, g, |a|);
  }

  /** The prompt laid out from its pieces: the quoted topic line, the difficulty sentence,
      the history section and the fixed instructions, separated by indented line breaks. */
  function Layout(topic: string, difficultyLine: string, historyLines: string, tail: string): (r: string)
    ensures |r| == |PromptLead| + |topic| + 9 + |difficultyLine| + |historyLines| + |tail|
    ensures r[..|PromptLead|] == PromptLead
    ensures r[|PromptLead|..|PromptLead| + |topic| + 2] == Quoted(topic)
    ensures var o := |PromptLead| + |topic| + 6; r[o..o + |difficultyLine|] == difficultyLine
    ensures var o := |PromptLead| + |topic| + 9 + |difficultyLine|; r[o..o + |historyLines|] == historyLines
    ensures r[|r| - |tail|..] == tail
  {
    PiecesAt(PromptLead, Quoted(topic), ".\n  ", difficultyLine, "\n  ", historyLines, tail);
    PromptLead + Quoted(topic) + ".\n  " + difficultyLine + "\n  " + historyLines + tail
  }

  /** The question-generation prompt. */
  function BuildPrompt(topic: string, difficulty: string, previous: seq<string>): (r: string)
    ensures |r| == |PromptLead| + |topic| + 9 + |DifficultyPrompt(difficulty)| + |HistoryContext(previous)| + |PromptTail|
    ensures r[..|PromptLead|] == PromptLead
    ensures r[|PromptLead|..|PromptLead| + |topic| + 2] == Quoted(topic)
    ensures var o := |PromptLead| + |topic| + 6;
      r[o..o + |DifficultyPrompt(difficulty)|] == DifficultyPrompt(difficulty)
    ensures var o := |PromptLead| + |topic| + 9 + |DifficultyPrompt(difficulty)|;
      r[o..o + |HistoryContext(previous)|] == HistoryContext(previous)
    ensures r[|r| - |PromptTail|..] == PromptTail
  {
    Layout(topic, DifficultyPrompt(difficulty), HistoryContext(previous), PromptTail)
  }

  /** A line inside the history section sits at the section's offset plus its own. */
  lemma LayoutHistoryLine(topic: string, difficultyLine: string, before: string, line: string, after: string, tail: string)
    ensures var r := Layout(topic, difficultyLine, before + line + after, tail);
      var o := |PromptLead| + |topic| + 9 + |difficultyLine| + |before|;
      o + |line| <= |r| && r[o..o + |line|] == line
  {
    var hc := before + line + after;
    var r := Layout(topic, difficultyLine, hc, tail);
    var o0 := |PromptLead| + |topic| + 9 + |difficultyLine|;
    SliceOfConcat(before, line, after);
    assert r[o0..o0 + |hc|] == hc;
    assert r[o0 + |before|..o0 + |before| + |line|] == hc[|before|..|before| + |line|];
  }

  /** The history section splits around entry k. */
  lemma HistoryContextAt(previous: seq<string>, k: nat)
    requires k < |previous|
    ensures HistoryContext(previous)
      == (HistoryHeader + Bulleted(previous[..k])) + ("- " + previous[k] + "\n") + Bulleted(previous[k + 1..])
  {
    BulletedAt(previous, k);
    Regroup(HistoryHeader, Bulleted(previous[..k]), "- " + previous[k] + "\n", Bulleted(previous[k + 1..]));
  }

  /** Entry k of the history sits on its own line in any layout of the prompt. */
  lemma LayoutListsPreviousQuestion(topic: string, difficultyLine: string, previous: seq<string>, k: nat, tail: string)
    requires k < |previous|
    ensures var r := Layout(topic, difficultyLine, HistoryContext(previous), tail);
      var o := |PromptLead| + |topic| + 9 + |difficultyLine| + |HistoryHeader| + |Bulleted(previous[..k])|;
      o + |previous[k]| + 3 <= |r| && r[o..o + |previous[k]| + 3] == "- " + previous[k] + "\n"
  {
    var before := HistoryHeader + Bulleted(previous[..k]);
    var line := "- " + previous[k] + "\n";
    var after := Bulleted(previous[k + 1..]);
    HistoryContextAt(previous, k);
    assert HistoryContext(previous) == before + line + after;
    LayoutHistoryLine(topic, difficultyLine, before, line, after, tail);
    assert |before| == |HistoryHeader| + |Bulleted(previous[..k])|;
  }

  /** Every previously asked question appears in the prompt, in order, on its own "- " line. */
  lemma PromptListsPreviousQuestion(topic: string, difficulty: string, previous: seq<string>, k: nat)
    requires k < |previous|
    ensures var r := BuildPrompt(topic, difficulty, previous);
      var o := |PromptLead| + |topic| + 9 + |DifficultyPrompt(difficulty)| + |HistoryHeader| + |Bulleted(previous[..k])|;
      o + |previous[k]| + 3 <= |r| && r[o..o + |previous[k]| + 3] == "- " + previous[k] + "\n"
  {
    LayoutListsPreviousQuestion(topic, DifficultyPrompt(difficulty), previous, k, PromptTail);
  }

  /** A reply text is usable when it is present and non-empty (`if (!text)` rejects the rest). */
  predicate Truthy(text: Option<string>) { text.Some? && text.value != "" }

  /** The only shape check the source makes: `options` is present and has exactly four entries. */
  predicate HasFourOptions(raw: RawQuestion) { raw.options.Some? && |raw.options.value| == 4 }

  /** The parsed object, passed on unchanged once its options are present. */
  function AsQuestion(raw: RawQuestion): (q: QuizQuestion)
    requires raw.options.Some?
    ensures Some(q.options) == raw.options
    ensures q.question == raw.question && q.correctAnswerIndex == raw.correctAnswerIndex
    ensures q.explanation == raw.explanation && q.difficulty == raw.difficulty && q.hint == raw.hint
  {
    QuizQuestion(raw.question, raw.options.value, raw.correctAnswerIndex, raw.explanation, raw.difficulty, raw.hint)
  }

  /** `generateQuizQuestion`: send the prompt, reject an empty reply and a reply without exactly
      four options, and re-throw every error (the client's, the parser's and its own). */
  function GenerateQuizQuestion(
    topic: string, difficulty: string, previous: seq<string>,
    client: string -> ClientCall, parse: string -> Result<RawQuestion, string>): (r: Result<QuizQuestion, string>)
    ensures var call := client(BuildPrompt(topic, difficulty, previous));
      && (call.Threw? ==> r == Failure(call.error))
      && (call.Replied? && !Truthy(call.text) ==> r == Failure(NoTextMessage))
      && (call.Replied? && Truthy(call.text) && parse(call.text.value).Failure? ==>
            r == Failure(parse(call.text.value).error))
      && (call.Replied? && Truthy(call.text) && parse(call.text.value).Success? ==>
            var raw := parse(call.text.value).value;
            if HasFourOptions(raw) then r == Success(AsQuestion(raw)) else r == Failure(InvalidOptionsMessage))
    ensures r.Success? ==> |r.value.options| == 4
  {
    match client(BuildPrompt(topic, difficulty, previous))
    case Threw(e) => Failure(e)
    case Replied(text) =>
      if !Truthy(text) then Failure(NoTextMessage)
      else
        match parse(text.value)
        case Failure(e) => Failure(e)
        case Success(raw) =>
          if !HasFourOptions(raw) then Failure(InvalidOptionsMessage)
          else Success(AsQuestion(raw))
  }

  /** An accepted question is exactly the parsed object of a usable reply with four options. */
  lemma AcceptedIffValidReply(
    topic: string, difficulty: string, previous: seq<string>,
    client: string -> ClientCall, parse: string -> Result<RawQuestion, string>, q: QuizQuestion)
    ensures var call := client(BuildPrompt(topic, difficulty, previous));
      GenerateQuizQuestion(topic, difficulty, previous, client, parse) == Success(q)
      <==>
      (call.Replied? && Truthy(call.text) && parse(call.text.value).Success?
       && HasFourOptions(parse(call.text.value).value) && AsQuestion(parse(call.text.value).value) == q)
  {
  }

  /** The correct-answer index is not validated: an index outside the four options is accepted. */
  lemma CorrectIndexNotValidated(topic: string, difficulty: string, previous: seq<string>)
    ensures var raw := RawQuestion("Q", Some(["a", "b", "c", "d"]), 7, "E", "Easy", "H");
      var r := GenerateQuizQuestion(topic, difficulty, previous, _ => Replied(Some("{}")), _ => Success(raw));
      r.Success? && r.value.correctAnswerIndex == 7
  {
    var raw := RawQuestion("Q", Some(["a", "b", "c", "d"]), 7, "E", "Easy", "H");
    var client: string -> ClientCall := _ => Replied(Some("{}"));
    var parse: string -> Result<RawQuestion, string> := _ => Success(raw);
    assert Truthy(client(BuildPrompt(topic, difficulty, previous)).text) by {
      assert |"{}"| == 2;
    }
    assert HasFourOptions(raw);
  }

  /** `generateTrendingTopics`: best effort, it never fails. A thrown call, an empty reply or a
      parser error all give the empty list; otherwise the parsed list is returned. */
  function GenerateTrendingTopics(
    client: string -> ClientCall, parse: string -> Result<seq<TopicSuggestion>, string>): (r: seq<TopicSuggestion>)
    ensures var call := client(TrendingPrompt);
      && (call.Threw? ==> r == [])
      && (call.Replied? && !Truthy(call.text) ==> r == [])
      && (call.Replied? && Truthy(call.text) && parse(call.text.value).Failure? ==> r == [])
      && (call.Replied? && Truthy(call.text) && parse(call.text.value).Success? ==> r == parse(call.text.value).value)
  {
    match client(TrendingPrompt)
    case Threw(_) => []
    case Replied(text) =>
      if !Truthy(text) then []
      else
        match parse(text.value)
        case Failure(_) => []
        case Success(topics) => topics
  }
}
