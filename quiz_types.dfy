/** The records of a quiz session (src/types/quiz.ts). */
module QuizTypes {

  datatype Option<T> = None | Some(value: T)

  /** The three difficulty labels a configuration may carry. */
  datatype Level = Easy | Medium | Hard

  /** The label the application stores and displays for a level. */
  function LevelName(l: Level): string {
    match l
    case Easy => "fácil"
    case Medium => "médio"
    case Hard => "difícil"
  }

  datatype QuizConfig = QuizConfig(
    level: Level,
    themes: seq<string>,
    quantityQuestions: nat,
    timerMinutes: nat)

  /** A generated question; `answer` is the text of the correct option. */
  datatype Question = Question(question: string, options: seq<string>, answer: string)

  /** One answer slot; the empty answer means "not answered". */
  datatype UserAnswer = UserAnswer(answer: string, timeSpentSeconds: nat)

  const EmptyAnswer := UserAnswer("", 0)

  /** The whole session. `currentQuestionIndex` is an int: the reducer can
      drive it to -1 when no questions are loaded. */
  datatype QuizData = QuizData(
    config: QuizConfig,
    questions: seq<Question>,
    currentQuestionIndex: int,
    userAnswers: seq<UserAnswer>,
    isCompleted: bool)
}
