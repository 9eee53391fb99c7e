/**
 * The two-step quiz editor: step 1 holds the quiz details, step 2 a pending question that is
 * committed to the quiz's question list. A finished quiz is handed to the caller; a draft is
 * written into the browser's key-value store under a key derived from the quiz's id.
 */
module CreateQuizFlow {
  import opened Wrappers
  import opened Text
  import opened Types

  /** The quiz details edited in step 1. */
  datatype Details = Details(title: string, subject: string, keyStage: string, difficulty: string)

  /** The `name` of a detail input: which field a change event addresses. */
  datatype DetailField = Title | Subject | KeyStage | Difficulty

  /** The value of one detail field. */
  function Get(d: Details, field: DetailField): string
  {
    match field
    case Title => d.title
    case Subject => d.subject
    case KeyStage => d.keyStage
    case Difficulty => d.difficulty
  }

  /** `{ ...d, [field]: value }`: the named field replaced, the others kept. */
  function WithField(d: Details, field: DetailField, value: string): (r: Details)
    ensures Get(r, field) == value
    ensures forall f: DetailField :: f != field ==> Get(r, f) == Get(d, f)
  {
    match field
    case Title => d.(title := value)
    case Subject => d.(subject := value)
    case KeyStage => d.(keyStage := value)
    case Difficulty => d.(difficulty := value)
  }

  /** The question being written in step 2, not yet part of the quiz. */
  datatype Pending = Pending(text: string, options: seq<string>, correctAnswerIndex: int)

  /** The empty question the editor starts from and returns to after each added question. */
  const EmptyPending := Pending("", ["", "", "", ""], 0)

  /** The add guard: text and every option hold something after trimming. */
  predicate Ready(p: Pending) {
    Filled(p.text, p.options)
  }

  /** What `onSave` receives: the quiz, and the id of the draft it replaces, if any. */
  datatype SaveRequest = SaveRequest(quiz: Quiz, draftIdToRemove: Option<string>)

  /** `initialData?.id`: the id of the quiz being edited. */
  function LoadedId(initialData: Option<Quiz>): Option<string>
  {
    if initialData.Some? then initialData.value.id else None
  }

  /** A fresh draft's id, made from a clock reading. */
  function FreshDraftId(stamp: nat): (id: string)
    ensures |id| > 6 && id[..6] == "draft-"
  {
    "draft-" + NatToString(stamp)
  }

  /** `initialData?.id || \`draft-${stamp}\``: the loaded id unless it is missing or empty. */
  function DraftId(initialData: Option<Quiz>, stamp: nat): (id: string)
    ensures id != []
    ensures var loaded := LoadedId(initialData);
      id == (if loaded.Some? && loaded.value != [] then loaded.value else FreshDraftId(stamp))
  {
    var loaded := LoadedId(initialData);
    if loaded.Some? && loaded.value != "" then loaded.value else FreshDraftId(stamp)
  }

  /** The store key a draft is written under. */
  function DraftKey(id: string): string
  {
    "quiz-draft-" + id
  }

  /** Different draft ids give different keys. */
  lemma DraftKeyInjective(a: string, b: string)
    requires DraftKey(a) == DraftKey(b)
    ensures a == b
  {
    assert a == DraftKey(a)[11..] && b == DraftKey(b)[11..];
  }

  /** Saving the same loaded quiz again writes the same key, whatever the clock says. */
  lemma LoadedDraftKeyStable(initialData: Option<Quiz>, stamp1: nat, stamp2: nat)
    requires LoadedId(initialData).Some? && LoadedId(initialData).value != ""
    ensures DraftKey(DraftId(initialData, stamp1)) == DraftKey(DraftId(initialData, stamp2))
    ensures DraftKey(DraftId(initialData, stamp1)) == DraftKey(LoadedId(initialData).value)
  {
  }

  /** Fresh drafts saved at different clock readings get different keys. */
  lemma FreshDraftKeysDistinct(initialData: Option<Quiz>, stamp1: nat, stamp2: nat)
    requires LoadedId(initialData).None? || LoadedId(initialData).value == ""
    requires stamp1 != stamp2
    ensures DraftKey(DraftId(initialData, stamp1)) != DraftKey(DraftId(initialData, stamp2))
  {
    var a, b := DraftId(initialData, stamp1), DraftId(initialData, stamp2);
    assert a[6..] == NatToString(stamp1) && b[6..] == NatToString(stamp2);
    assert DraftKey(a)[11..] == a && DraftKey(b)[11..] == b;
  }

  /** A fresh draft's key never meets the key of a loaded quiz whose id does not look like a draft id. */
  lemma FreshDraftKeyApart(loaded: string, stamp: nat)
    requires |loaded| < 6 || loaded[..6] != "draft-"
    ensures DraftKey(loaded) != DraftKey(FreshDraftId(stamp))
  {
    assert DraftKey(loaded)[11..] == loaded;
    assert DraftKey(FreshDraftId(stamp))[11..] == FreshDraftId(stamp);
  }

  /** `localStorage`, with the stored JSON read back as the quiz it encodes. */
  class LocalStorage {
    var items: map<string, Quiz>

    constructor (items: map<string, Quiz>)
      ensures this.items == items
    {
      this.items := items;
    }

    /** `setItem`: the key now holds the value; every other key is as it was. */
    method SetItem(key: string, value: Quiz)
      modifies this
      ensures items == old(items)[key := value]
    {
      items := items[key := value];
    }
  }

  /** The editor's state while it is open. */
  class QuizEditor {
    /** The subjects offered in the subject select. */
    const userSubjects: seq<string>
    /** The quiz being edited, if the editor was opened on one. */
    const initialData: Option<Quiz>
    const storage: LocalStorage

    var step: int
    var details: Details
    var questions: seq<Question>
    var current: Pending

    /** One of the two steps, and a pending question with four options and an index among them. */
    predicate Valid()
      reads this
    {
      (step == 1 || step == 2) && |current.options| == 4 && 0 <= current.correctAnswerIndex < 4
    }

    /**
     * The first render: step 1, an untitled quiz in the first of the user's subjects, key stage
     * KS3, medium difficulty, no questions and an empty pending question.
     */
    constructor (userSubjects: seq<string>, initialData: Option<Quiz>, storage: LocalStorage)
      ensures Valid()
      ensures this.userSubjects == userSubjects && this.initialData == initialData && this.storage == storage
      ensures step == 1 && questions == [] && current == EmptyPending
      ensures details == Details("", if userSubjects == [] then "" else userSubjects[0], "KS3", "Medium")
    {
      this.userSubjects := userSubjects;
      this.initialData := initialData;
      this.storage := storage;
      step := 1;
      details := Details("", if userSubjects == [] then "" else userSubjects[0], "KS3", "Medium");
      questions := [];
      current := EmptyPending;
    }

    /**
     * The effect run when the editor is given a quiz: its details and questions replace the
     * editor's; the step and the pending question stay as they are.
     */
    method LoadInitialData()
      requires Valid()
      modifies this
      ensures Valid() && step == old(step) && current == old(current)
      ensures initialData.None? ==> details == old(details) && questions == old(questions)
      ensures initialData.Some? ==>
        var q := initialData.value;
        details == Details(q.title, q.subject, q.keyStage, q.difficulty) && questions == q.questions
    {
      if initialData.Some? {
        var q := initialData.value;
        details := Details(q.title, q.subject, q.keyStage, q.difficulty);
        questions := q.questions;
      }
    }

    /** An edit in step 1: the named detail takes the value, nothing else changes. */
    method DetailChange(field: DetailField, value: string)
      requires Valid()
      modifies this
      ensures Valid()
      ensures Get(details, field) == value
      ensures forall f: DetailField :: f != field ==> Get(details, f) == Get(old(details), f)
      ensures step == old(step) && questions == old(questions) && current == old(current)
    {
      details := WithField(details, field, value);
    }

    /** An edit of the pending question's text. */
    method QuestionTextChange(text: string)
      requires Valid()
      modifies this
      ensures Valid()
      ensures current == old(current).(text := text)
      ensures step == old(step) && details == old(details) && questions == old(questions)
    {
      current := current.(text := text);
    }

    /** An edit of one of the four option inputs: only that option changes. */
    method OptionChange(index: nat, value: string)
      requires Valid() && index < 4
      modifies this
      ensures Valid()
      ensures current.options[index] == value
      ensures forall k :: 0 <= k < 4 && k != index ==> current.options[k] == old(current).options[k]
      ensures current.text == old(current).text
      ensures current.correctAnswerIndex == old(current).correctAnswerIndex
      ensures step == old(step) && details == old(details) && questions == old(questions)
    {
      current := current.(options := current.options[index := value]);
    }

    /**
     * A pick in the correct-answer select. Its options carry the values 0 to 3 as text, which
     * `parseInt` reads back, so the pending index becomes the picked option.
     */
    method CorrectAnswerChange(choice: nat)
      requires Valid() && choice < 4
      modifies this
      ensures Valid()
      ensures current == old(current).(correctAnswerIndex := choice)
      ensures step == old(step) && details == old(details) && questions == old(questions)
    {
      ParseIntOfNatToString("", choice, "");
      assert "" + NatToString(choice) + "" == NatToString(choice);
      var n := ParseInt(NatToString(choice));
      current := current.(correctAnswerIndex := n.value);
    }

    /**
     * The add button. When the pending question is ready it is appended, stamped with the
     * clock reading, as a well-formed and complete question, and the pending question is reset;
     * otherwise nothing changes.
     */
    method AddQuestion(stamp: nat) returns (added: bool)
      requires Valid()
      modifies this
      ensures Valid()
      ensures added <==> Ready(old(current))
      ensures added ==>
        var q := Question(stamp, old(current).text, old(current).options, old(current).correctAnswerIndex);
        questions == old(questions) + [q] && WellFormed(q) && Complete(q) && current == EmptyPending
      ensures !added ==> questions == old(questions) && current == old(current)
      ensures step == old(step) && details == old(details)
    {
      added := Ready(current);
      if added {
        questions := questions + [Question(stamp, current.text, current.options, current.correctAnswerIndex)];
        current := EmptyPending;
      }
    }

    /**
     * The save button: nothing is handed on while the quiz has no questions; otherwise the
     * assembled quiz goes out together with the loaded quiz's id, the draft to drop.
     */
    method Submit() returns (request: Option<SaveRequest>)
      ensures request.None? <==> questions == []
      ensures request.Some? ==>
        request.value.quiz.questions == questions && request.value.quiz.id.None?
        && request.value.quiz.title == details.title && request.value.quiz.subject == details.subject
        && request.value.quiz.keyStage == details.keyStage && request.value.quiz.difficulty == details.difficulty
        && request.value.draftIdToRemove == LoadedId(initialData)
    {
      if |questions| == 0 {
        request := None;
      } else {
        var quiz := Quiz(None, details.title, details.subject, details.keyStage, details.difficulty, questions);
        request := Some(SaveRequest(quiz, LoadedId(initialData)));
      }
    }

    /**
     * The save-draft button: without a title nothing is stored and the editor stays open;
     * otherwise the quiz, carrying its draft id, is stored under that id's key, every other
     * key keeps its value, and the editor closes.
     */
    method SaveDraft(stamp: nat) returns (closed: bool)
      modifies storage
      ensures closed <==> SaveDraftEnabled()
      ensures !closed ==> storage.items == old(storage.items)
      ensures closed ==>
        var id := DraftId(initialData, stamp);
        storage.items == old(storage.items)[DraftKey(id) :=
          Quiz(Some(id), details.title, details.subject, details.keyStage, details.difficulty, questions)]
    {
      if !SaveDraftEnabled() {
        closed := false;
      } else {
        var id := DraftId(initialData, stamp);
        storage.SetItem(DraftKey(id),
          Quiz(Some(id), details.title, details.subject, details.keyStage, details.difficulty, questions));
        closed := true;
      }
    }

    /** Next is shown on step 1 and enabled once the quiz has a title. */
    predicate NextEnabled()
      reads this
    {
      step == 1 && details.title != ""
    }

    /** Save Draft is shown on both steps and enabled once the quiz has a title. */
    predicate SaveDraftEnabled()
      reads this
    {
      details.title != ""
    }

    /** A click on Next, which only an enabled button delivers: on to step 2. */
    method ClickNext()
      requires Valid()
      modifies this
      ensures Valid()
      ensures step == (if old(NextEnabled()) then 2 else old(step))
      ensures details == old(details) && questions == old(questions) && current == old(current)
    {
      if NextEnabled() {
        step := 2;
      }
    }

    /** A click on Back, shown on step 2 only and always enabled: back to step 1. */
    method ClickBack()
      requires Valid()
      modifies this
      ensures Valid()
      ensures step == 1
      ensures details == old(details) && questions == old(questions) && current == old(current)
    {
      step := 1;
    }
  }
}
