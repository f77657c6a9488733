# Quiz Master, verified model

Quiz Master is a single-page quiz app. The player picks a topic and a difficulty, either by
typing the topic or by clicking one of four trending topics. A hosted language model then
generates one multiple-choice question at a time. The player answers or skips each question,
and the app keeps a score, a count of questions asked and a streak of correct answers. Text in
questions, options, hints and explanations can hold `$…$` and `$$…$$` math, which is rendered
by a math renderer.

This project models the logic behind that flow and proves what it promises:

- `Session` (app.dfy) is the quiz session state machine, written as a class. It covers start,
  issuing a fetch, a fetch that succeeds or fails, answer, next, skip, retry and exit. It also
  models the "quiz is active" flag, which drops results that arrive after an exit. A fetch is
  two events: `FetchQuestion` issues the request and returns the arguments given to the
  generator, and `Resolve` delivers the generator's outcome later.
- `Card` (quiz_card.dfy) is the question card. It holds the single-shot answer guard, the
  reset when a new question is shown, and the pure classification of options (style, icon,
  text colour). It also holds the feedback heading, the difficulty badge and the controls
  shown before and after answering.
- `MathText` (formatted_text.dfy) splits text on math delimiters with the semantics of
  JavaScript's `split` with a capturing regular expression. It then classifies each part as
  block math, inline math or plain text and renders it with a renderer that may fail.
- `Gemini` (gemini.dfy) builds the question prompt (difficulty sentence, history section,
  quoted topic) and validates the generator's reply. It also models the best-effort
  trending-topics request. The model client and the JSON parser are parameters.
- `Topics` (topic_selector.dfy) is the topic selector: the trimmed free-text submit, the
  difficulty choice, the two fallback topic lists, the `mounted` guard and the start from a
  trending topic.
- `Types` (types.dfy) holds the shapes of a question, the counters and the status.
  `Wrappers` (wrappers.dfy) holds `Option` and `Result`.

Some behaviour of the code is worth stating outright, because the model keeps it as written:

- The stale-result guard is one boolean, with no session token. So a fetch issued before an
  exit and resolved after a new start is applied to the new session (`RestartScenario`).
- The correct-answer index is never range-checked (`CorrectIndexNotValidated`,
  `OutOfRangeIndexMarksNothing`).
- The session does not reject a second answer to the same question. Only the card's guard
  does (`HandleResult`, `SelectOption`, `SelectTwice`, `ClickTwice`).
- Exit does not clear the error message (`HandleExit` keeps `error`).

Every method of the three classes states its whole new state, and `SelectOption` states the
new state of both the session and the card. A session's state is compared as
one `SessionView` value, for example `View() == old(View()).(status := Loading, error := None)`.
Each method also keeps the class invariant:

- session: `score <= totalQuestions`, and a question is present while playing;
- card: an index is recorded exactly when the question has been answered;
- selector: the difficulty is one of the four choices, and once loading is over there are topics.

## Model

| member | source | states |
|---|---|---|
| Session.RecentHistory | App.tsx:55 | the history sent to the generator holds min(20, \|history\|) entries and is exactly the end of the history, in order |
| Session.RecentHistorySlides | App.tsx:55 | appending a question to the history appends it to the window, and the oldest entry leaves once twenty are held |
| Session.Scored | App.tsx:90-96 | an answer adds one to the count, one to the score iff it is correct, extends the streak if correct and resets it otherwise, and keeps score <= count |
| Session.Skipped | App.tsx:104-109 | a skip adds one to the count, keeps the score, resets the streak, and keeps score <= count |
| Session.ReplayCounts | App.tsx:85-109 | after any run of answers and skips since a start, the count is the run's length and the score is its number of correct answers, so score <= count |
| Session.ReplayStreak | App.tsx:90-109 | the streak is exactly the length of the run of correct answers that ends the outcomes |
| Session.QuizSession.constructor | App.tsx:11-21 | initial state: idle, no topic, difficulty "Mixed", no question, no error, empty history, zero counters, inactive |
| Session.QuizSession.FetchQuestion | App.tsx:50-56 | issuing a fetch sets status to loading and clears the error, and changes nothing else; the request carries the last twenty history entries |
| Session.QuizSession.Resolve | App.tsx:57-77 | while active, success stores the question, appends exactly its text to the history and sets playing, and failure sets the fixed message and the error status; while inactive nothing changes |
| Session.QuizSession.Start | App.tsx:80-88 | start sets the active flag, records topic and difficulty, zeroes the counters, empties the history and issues a fetch with an empty history |
| Session.QuizSession.HandleResult | App.tsx:90-96 | an answer report updates only the counters, as Scored says; a second report for the same question is not rejected |
| Session.QuizSession.HandleNext | App.tsx:98-102 | with a topic, fetch with the current topic, difficulty and history; with no topic, nothing changes |
| Session.QuizSession.HandleSkip | App.tsx:104-113 | a skip updates the counters as Skipped says, and then fetches like next, only when there is a topic |
| Session.QuizSession.Retry | App.tsx:167-168 | "Try Again" fetches again with the unchanged topic, difficulty and history |
| Session.QuizSession.HandleExit | App.tsx:115-123 | exit resets to idle, no topic, "Mixed", zero counters, empty history, no question and inactive; the error message is kept |
| Session.QuizSession.SelectOption | App.tsx:150-155 | a click on an unanswered card marks it answered with the clicked index and counts the answer, with correctness against the card's question; a click on an answered card changes neither the card's index nor any counter |
| Session.ClickTwice | components/QuizCard.tsx:25-31 | two clicks on one card count one answer, that of the first click |
| Session.StartAndReceive | App.tsx:80-88 | start then a successful fetch leaves the session playing that question, with it as the only history entry and zero counters |
| Session.AnswerAndContinue | App.tsx:50-102 | start, receive, answer correctly, next, receive: score, count and streak are 1, and the second request carries the first question as history |
| Session.RomanEmpireScenario | App.tsx:80-102 | the same flow for the topic "Roman Empire" at difficulty "Easy" |
| Session.RetryScenario | App.tsx:69-77 | a failed fetch followed by a successful retry is playing the question, with no question counted |
| Session.ExitScenario | App.tsx:58-61 | a fetch issued before an exit and resolved after it changes nothing: the session stays idle with no question |
| Session.RestartScenario | App.tsx:48 | the active flag is one boolean: an old fetch resolving after exit and restart is applied to the new session |
| Card.StyleOf | components/QuizCard.tsx:33-49 | before submission every option is neutral; afterwards an option is marked correct iff it is the correct index, chosen-wrong iff it was chosen and is not correct, and dimmed otherwise |
| Card.IconOf | components/QuizCard.tsx:51-63 | an open circle iff not submitted; afterwards a check mark iff the correct index, a cross iff chosen and not correct, a faded circle otherwise |
| Card.ToneOf | components/QuizCard.tsx:88-90 | green text iff submitted and the correct index; red text iff submitted, chosen and not correct; standard otherwise |
| Card.IconAndToneFollowStyle | components/QuizCard.tsx:51-63 | the icon (and the label colour of lines 88-90) of every option agrees with its style |
| Card.OneOptionMarkedCorrect | components/QuizCard.tsx:40-46 | after submission, with an in-range correct index, exactly that option is marked correct whichever was chosen, and only the chosen option can be marked wrong |
| Card.OutOfRangeIndexMarksNothing | components/QuizCard.tsx:40-48 | with an out-of-range correct index, no option is marked correct after submission |
| Card.FeedbackLabel | components/QuizCard.tsx:153 | the heading is "Correct!" iff the selected index is the correct one, and "Explanation:" otherwise |
| Card.FeedbackAgreesWithChosenStyle | components/QuizCard.tsx:142-153 | the heading is "Correct!" iff the chosen option is styled correct, and "Explanation:" iff it is styled wrong |
| Card.BadgeColourOf | components/QuizCard.tsx:72-75 | the badge is green iff the lower-cased difficulty is "easy", yellow iff it is "medium", red otherwise |
| Card.BadgeIgnoresCase | components/QuizCard.tsx:73-74 | two difficulties that differ only in letter case get the same badge |
| Card.BadgeOfGeneratedLabels | components/QuizCard.tsx:73-75 | "Easy" and "EASY" are green, "Medium" is yellow, "Hard" and "Mixed" are red |
| Card.ControlsShown | components/QuizCard.tsx:101-171 | hint button or hint panel and the skip button only before submission; feedback and next only after it |
| Card.SkipXorNext | components/QuizCard.tsx:101-171 | exactly one of skip and next is offered at any time |
| Card.QuizCard.constructor | components/QuizCard.tsx:13-16 | a new card has nothing selected, is not submitted and hides the hint |
| Card.QuizCard.QuestionChanged | components/QuizCard.tsx:19-23 | a new question resets the selection to none, submitted to false and the hint to hidden |
| Card.QuizCard.HandleSelect | components/QuizCard.tsx:25-31 | the first selection records the index, marks the card submitted, reports whether it equals the correct index, and leaves the chosen option styled correct or wrong; later selections report nothing and change nothing |
| Card.QuizCard.RevealHint | components/QuizCard.tsx:104-106 | the hint button shows the hint and changes nothing else |
| Card.SelectTwice | components/QuizCard.tsx:25-31 | two selections on one card report one result, that of the first |
| MathText.MatchAt | components/FormattedText.tsx:12 | a match anchored at an index spans at least three characters and ends inside the text |
| MathText.MatchAtSegment | components/FormattedText.tsx:12 | what matches is a shortest `$$…$$` or `$…$` segment with at least one character between its delimiters |
| MathText.MatchAtNone | components/FormattedText.tsx:12 | nothing matches at an index iff it holds no "$" or no "$" follows from two characters on |
| MathText.MatchAtPrefersBlock | components/FormattedText.tsx:12 | when a closing "$$" follows an opening "$$", the block alternative is the match |
| MathText.Split | components/FormattedText.tsx:12 | the split has an odd number of parts: unmatched text and matched segments alternate |
| MathText.SplitConcat | components/FormattedText.tsx:10-12 | joining the parts gives back the original text |
| MathText.SplitPartAt | components/FormattedText.tsx:12 | leftmost-first matching: each part sits at the offset of the parts before it; no match starts inside an unmatched part; each matched part is exactly the match at its offset |
| MathText.MatchedPartIsSegment | components/FormattedText.tsx:12 | every matched part is a shortest `$$…$$` or `$…$` segment with content |
| MathText.NoDollarSingleton | components/FormattedText.tsx:12 | text without "$" splits into one part, itself |
| MathText.Classify | components/FormattedText.tsx:17-39 | block iff the part starts and ends with "$$"; else inline iff it starts and ends with "$"; otherwise plain; the content is the part without its delimiters, or "" when it is too short |
| MathText.BlockSegmentIsBlockMath | components/FormattedText.tsx:17-19 | a matched `$$…$$` segment is block math with the text between its delimiters |
| MathText.InlineSegmentIsInlineMath | components/FormattedText.tsx:27-29 | a matched `$…$` segment other than "$$$" is inline math with the text between its delimiters |
| MathText.ShortParts | components/FormattedText.tsx:17-29 | "$" is inline math with empty content; "$$" and "$$$" are block math with empty content |
| MathText.RenderPart | components/FormattedText.tsx:16-40 | plain parts and parts whose rendering fails are shown as the original part; math parts are rendered with display mode iff they are block math |
| MathText.FormattedText | components/FormattedText.tsx:12-41 | one shown piece per part, in the order of the parts |
| MathText.FailedRenderingShowsOriginal | components/FormattedText.tsx:23-35 | when every rendering fails, the shown text is exactly the original text |
| MathText.NoDollarShownLiterally | components/FormattedText.tsx:37-39 | text without "$" is shown as one literal piece |
| Gemini.DifficultyPrompt | services/gemini.ts:10-12 | the random-difficulty sentence iff the difficulty is "Mixed"; otherwise the fixed lead followed by the difficulty in double quotes and a final full stop |
| Gemini.JoinIsBulleted | services/gemini.ts:16 | joining with "\n- " between a leading "- " and a trailing newline gives one "- " line per entry |
| Gemini.BulletedAt | services/gemini.ts:16 | each entry appears, in order, on its own bulleted line |
| Gemini.HistoryContext | services/gemini.ts:15-17 | empty iff there is no history; otherwise the header line followed by one "- " line per entry, in order |
| Gemini.HistoryContextAt | services/gemini.ts:15-17 | the history section splits around the line of any entry |
| Gemini.Layout | services/gemini.ts:19-34 | the prompt template: lead, quoted topic, difficulty line, history section and instructions at fixed offsets |
| Gemini.BuildPrompt | services/gemini.ts:19-34 | the prompt embeds the topic verbatim in double quotes, then the difficulty sentence, the history section and the fixed instructions |
| Gemini.LayoutListsPreviousQuestion | services/gemini.ts:15-21 | in any layout, history entry k sits on its own "- " line at the offset of the entries before it |
| Gemini.PromptListsPreviousQuestion | services/gemini.ts:15-21 | every previous question appears in the prompt, in order, on its own "- " line |
| Gemini.AsQuestion | services/gemini.ts:81-88 | an accepted reply is returned unchanged, field for field |
| Gemini.GenerateQuizQuestion | services/gemini.ts:76-93 | a client error is re-thrown, a missing or empty text fails, a parser error is re-thrown, missing options or a count other than four fail, and otherwise the parsed object is returned, always with four options |
| Gemini.AcceptedIffValidReply | services/gemini.ts:76-88 | a question is accepted iff the reply text is non-empty, parses, and has exactly four options, and then it is the parsed object |
| Gemini.CorrectIndexNotValidated | services/gemini.ts:84-88 | a reply whose correct index is 7 is accepted unchanged |
| Gemini.GenerateTrendingTopics | services/gemini.ts:123-130 | never fails: a thrown call, a missing or empty text or a parser error give the empty list, otherwise the parsed list |
| Topics.Trim | components/TopicSelector.tsx:57 | the result is the input without the white space at both ends; it is empty iff the input is all white space |
| Topics.TrimIdempotent | components/TopicSelector.tsx:57-58 | trimming a trimmed topic changes nothing |
| Topics.SubmitTopic | components/TopicSelector.tsx:55-60 | start is requested iff the input is not all white space, and then with the trimmed, non-empty topic and the chosen difficulty |
| Topics.SelectTopics | components/TopicSelector.tsx:23-44 | a non-empty fetched list is used as it is; an empty list gives the first fallback, a thrown error the second; never empty |
| Topics.FallbacksDiffer | components/TopicSelector.tsx:28-43 | the two fallbacks are different four-entry lists |
| Topics.SelectorOverTrendingRequest | components/TopicSelector.tsx:22-34 | over the trending request, which never throws, an unusable reply gives the empty-list fallback |
| Topics.TopicSelector.constructor | components/TopicSelector.tsx:12-18 | empty input, difficulty "Mixed", no topics, loading, mounted |
| Topics.TopicSelector.TypeInput | components/TopicSelector.tsx:103 | typing changes the input and nothing else |
| Topics.TopicSelector.ChooseDifficulty | components/TopicSelector.tsx:114-118 | a difficulty button sets one of the four choices and changes nothing else |
| Topics.TopicSelector.TopicsFetched | components/TopicSelector.tsx:20-47 | while mounted, the chosen list is stored and loading ends; after unmount, topics and the loading flag are unchanged |
| Topics.TopicSelector.Unmount | components/TopicSelector.tsx:52 | the cleanup clears the mounted flag and nothing else |
| Topics.TopicSelector.Submit | components/TopicSelector.tsx:55-60 | the form submit gives exactly SubmitTopic of the current input and difficulty |
| Topics.TopicSelector.ClickTopic | components/TopicSelector.tsx:158 | clicking a trending topic starts with its label, untrimmed, and the current difficulty |

## Left out

- The hosted model client (`generateContent`) is a parameter `client` from prompt to what the
  awaited call did. The model name and the response schemas in services/gemini.ts:37-74 and
  104-121 are part of that call and are not modelled.
- `JSON.parse` is a parameter `parse` from reply text to a parsed value or an error. Only a
  missing `options` field is represented. The other fields are taken to be present with their
  declared types, because the code checks none of them. A parse result that is not an object,
  or not an array for trending topics, is not represented. So `SelectTopics` does not model
  the `topics &&` test against a null result.
- The math renderer (`katex.renderToString`) is a parameter that returns rendered markup or
  fails. Its options and the markup itself are not modelled. `console.error` logging is left
  out everywhere.
- Asynchrony is modelled as separate issue and resolve events. Interleavings are whatever
  order of calls a caller makes. Concurrent execution and React's batching of state updates
  are not modelled.
- React's effect semantics are not modelled. The card's reset runs when the question object
  changes identity, and `QuestionChanged` is the event for that.
- Theme state, `localStorage`, `matchMedia`, the DOM class toggle, components/Header.tsx,
  components/Loading.tsx, the category icons of the topic selector, the loading skeleton, the
  Tailwind class strings and the JSX layout are left out. They are presentation or browser
  I/O. Only enum-level classification is kept.
- Card.BadgeColourOf: `toLowerCase` is modelled on the letters A-Z only. Full Unicode case
  mapping is not available. The comparison differs only for a non-ASCII character whose lower
  case is one of the letters of "easy" or "medium".
- Strings are sequences of characters, not UTF-16 code units, so `slice`, `length` and the
  split offsets count characters.
- Numbers are mathematical integers. JavaScript's number precision and non-integer indices
  are not modelled.
