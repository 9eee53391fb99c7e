/**
 * The records the components exchange: `User` and `UserRole` as `types.ts` declares them, and
 * `Question` and `Quiz` in the shape the quiz components build and read.
 */
module Types {
  import opened Wrappers
  import opened Text

  datatype UserRole = Student | Teacher | Admin

  /** A user; the optional fields are filled in by onboarding. */
  datatype User = User(
    name: string,
    email: string,
    role: UserRole,
    keyStage: Option<string>,
    yearGroup: Option<Number>,
    subjects: Option<seq<string>>,
    classGroups: Option<seq<string>>)

  /** One multiple-choice question; `id` is a clock reading (plus an offset when imported). */
  datatype Question = Question(id: int, text: string, options: seq<string>, correctAnswerIndex: int)

  /** A quiz; `id` is absent until the quiz is stored, and is always a string where it is set. */
  datatype Quiz = Quiz(
    id: Option<string>,
    title: string,
    subject: string,
    keyStage: string,
    difficulty: string,
    questions: seq<Question>)

  /** Four options and an answer index that picks one of them. */
  predicate WellFormed(q: Question) {
    |q.options| == 4 && 0 <= q.correctAnswerIndex < 4
  }

  /**
   * A question text and every option hold something besides whitespace: each one's `trim()`
   * is non-empty (see `Trim`).
   */
  predicate Filled(text: string, options: seq<string>) {
    !Blank(text) && forall k :: 0 <= k < |options| ==> !Blank(options[k])
  }

  /** A question whose text and options are filled. */
  predicate Complete(q: Question) {
    Filled(q.text, q.options)
  }
}
