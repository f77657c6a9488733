/** The shared shapes of the quiz: a generated question, the running score and the game status. */
module Types {

  /** A generated multiple-choice question, as handed to the session and the question card.
      Nothing ties `correctAnswerIndex` to the range of `options`: the source never checks it. */
  datatype QuizQuestion = QuizQuestion(
    question: string,
    options: seq<string>,
    correctAnswerIndex: int,
    explanation: string,
    difficulty: string,
    hint: string)

  /** The running counters of a quiz session. */
  datatype QuizState = QuizState(score: nat, totalQuestions: nat, streak: nat)

  /** The difficulty that lets the generator choose; also the selector's and the session's
      default difficulty. */
  const MixedDifficulty := "Mixed"

  /** The four statuses of the session; no other status exists. */
  datatype GameStatus = Idle | Loading | Playing | Error
}
