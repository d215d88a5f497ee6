/**
 * The value types of the interview application: the configuration chosen on
 * the home screen, question/answer pairs, the parsed evaluation, and the two
 * rows the local store keeps per finished interview.
 */
module Model {

  datatype Option<T> = None | Some(value: T)

  datatype DifficultyLevel = Basic | Intermediate | Advanced {
    /** The enum's `label`, which is what the stored record keeps. */
    function Label(): string {
      match this
      case Basic => "Basic"
      case Intermediate => "Intermediate"
      case Advanced => "Advanced"
    }
  }

  datatype Language = English | Turkish {
    function Label(): string {
      match this
      case English => "English"
      case Turkish => "Turkish"
    }
  }

  /** Upper bound of a Kotlin `Int`. */
  const IntMax: int := 2147483647

  datatype InterviewConfig = InterviewConfig(
    profession: string,
    difficulty: DifficultyLevel,
    language: Language,
    questionCount: int)

  datatype QuestionAnswer = QuestionAnswer(question: string, answer: string)

  datatype InterviewEvaluation = InterviewEvaluation(
    overallScore: int,
    strengths: seq<string>,
    weaknesses: seq<string>,
    recommendations: seq<string>,
    detailedFeedback: string)

  /** A row of the interview_records table.  The three lists are kept as lists:
      their JSON encoding is not part of this model. */
  datatype InterviewRecordEntity = InterviewRecordEntity(
    id: int,
    date: int,
    profession: string,
    difficulty: string,
    language: string,
    overallScore: int,
    strengths: seq<string>,
    weaknesses: seq<string>,
    recommendations: seq<string>,
    detailedFeedback: string)

  /** A row of the interview_questions table. */
  datatype InterviewQuestionEntity = InterviewQuestionEntity(
    interviewId: int,
    questionNumber: int,
    question: string,
    answer: string)
}
