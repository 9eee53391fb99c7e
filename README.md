# Quiz authoring in stagewise, modelled in Dafny

This project models the logic of stagewise's quiz-authoring code, a React app for teachers and students:

- **The file import** of the upload dialog. The text of a `.csv`/`.txt` file becomes a quiz with one question per non-blank line, or the import reports the first bad line.
- **The manual quiz editor.** It is a two-step wizard with quiz details, a pending question, a committed question list and a draft save into the browser's key-value store.
- **The application shell.** It tracks which view is showing, the picked role and the signed-in user, and chooses the component each view renders.
- **The two profile forms shown after sign-up.** They hold the subject toggle, the class-group list typed as comma-separated text, and the merge of the form into the user record.

The project has these files:

- `wrappers.dfy`: `Option` and `Result`.
- `text.dfy`: the JavaScript string and number operations the code relies on:
  - `trim` (ECMAScript's whitespace set);
  - `split` with one-character separators and `join`;
  - `parseInt(_, 10)`: leading whitespace, an optional sign, the longest run of decimal digits, NaN without digits;
  - the decimal rendering of a clock reading in a template literal.
- `types.dfy`: `User` and `UserRole` as declared, and `Question`/`Quiz` in the shape the components build.
- `upload.dfy`: the import parser, a pure function returning `Result<Quiz, ParseError>`.
- `import_format.dfy` and `round_trip.dfy`: the documented line format (`question text,option 1,…,option 4,index`) written out for a list of questions. Importing such a document gives the questions back. There are also three worked example files of one line each.
- `editor.dfy`: the editor as a class `QuizEditor` whose handlers are methods, and the store as a class `LocalStorage` over a `map`.
- `session.dfy`: the shell as a class `Session` with an invariant its handlers keep, plus the pure render dispatch.
- `onboarding.dfy`:
  - the shared subject toggle;
  - the class-group parse with its round trip;
  - the teacher and student forms as classes.

Clock readings (`Date.now()`) are parameters named `stamp`.

Behaviour of the code worth noting:

- **Draft id.** The editor reuses *any* non-empty id of the quiz it was opened on as the draft id, not only a draft-marked one. `CreateQuizFlow.FreshDraftKeyApart` shows that such a key never collides with a fresh draft's key.
- **Quiz handed to save.** The editor hands the quiz to save *without* an id. The loaded id goes alongside it as the draft to remove.
- **Step on open.** The editor always opens at step 1.
- **No dirty tracking.** There is no dirty tracking and no confirmation on close.
- **Blank question text.** The import does not reject blank question text.
- **No size check.** The import has no size check.

## Model

| member | source | states |
|---|---|---|
| Text.Trim | components/UploadQuiz.tsx:72-73 | The result has no whitespace at either end and is no longer than the input. It is empty exactly when the input is all whitespace. |
| Text.TrimSlice | components/UploadQuiz.tsx:72-73 | The result is the contiguous slice of the input left between a blank prefix and a blank suffix. |
| Text.TrimOfTrimmed | components/UploadQuiz.tsx:72-73 | Trimming leaves a string without whitespace at its ends unchanged, so trimming is idempotent. |
| Text.TrimKeepsOut | components/OnboardingTeacher.tsx:30 | Trimming introduces no character: a character missing from the input is missing from the result. |
| Text.Split | components/UploadQuiz.tsx:55 | There is always at least one piece, and no piece contains the separator. |
| Text.SplitCount | components/UploadQuiz.tsx:55-56 | There is exactly one more piece than there are separators in the text. |
| Text.JoinOfSplit | components/UploadQuiz.tsx:49 | Joining the pieces with the separator gives back the text: split loses nothing. |
| Text.SplitOfJoin | components/UploadQuiz.tsx:55 | Splitting the join of separator-free pieces gives back the pieces. |
| Text.SplitConcat | components/OnboardingTeacher.tsx:30 | The pieces of `a + sep + b` are the pieces of `a` followed by the pieces of `b`. |
| Text.TrimAll | components/UploadQuiz.tsx:73 | One result per piece, and result `k` is piece `k` trimmed. |
| Text.TrimAllConcat | components/OnboardingTeacher.tsx:30 | Mapping trim over two runs of pieces maps it over each. |
| Text.TrimAllOfTrimmed | components/UploadQuiz.tsx:73 | Pieces that are already trimmed come back unchanged. |
| Text.ParseInt | components/UploadQuiz.tsx:61 | NaN exactly when no digit follows the leading whitespace and optional sign. A negative result needs a leading minus. |
| Text.ParseIntOfDigits | components/UploadQuiz.tsx:61 | After blank text and an optional `+` or `-`, a run of digits followed by a non-digit or the end reads as its value, negated after `-`. |
| Text.DigitsValueLeadingZeros | components/UploadQuiz.tsx:61 | Leading zeros do not change the value read, so `007` reads as 7. |
| Text.ParseIntOfNatToString | components/CreateQuizFlow.tsx:59-61 | `parseInt` reads back the decimal rendering of any n ≥ 0, after blank text and before a tail that does not continue the digits. |
| Text.NatToString | components/UploadQuiz.tsx:79 | The rendering is a non-empty run of digits whose value is n, with no leading zero. |
| Text.NatToStringInjective | components/CreateQuizFlow.tsx:94 | Different clock readings render as different text. |
| UploadQuiz.Message | components/UploadQuiz.tsx:50-67 | Every line-level message starts with "Line " and the 1-based line number, and the character after the number is not a digit. |
| UploadQuiz.MessageLineNumber | components/UploadQuiz.tsx:57-67 | Reading the number after "Line " with `parseInt` gives back the error's line, so a message names its own line and no other. |
| UploadQuiz.QuestionLines | components/UploadQuiz.tsx:49 | The lines the import reads: none holds a newline and none is blank. `NoLinesIffBlank` and `DocumentLines` state which lines they are. |
| UploadQuiz.NonBlank | components/UploadQuiz.tsx:49 | No kept line is blank, and there are no more lines than in the input. |
| UploadQuiz.NonBlankKeeps | components/UploadQuiz.tsx:49 | Only lines of the input are kept, and every line that is not blank is kept. |
| UploadQuiz.NonBlankConcat | components/UploadQuiz.tsx:49 | Filtering two runs of lines filters each, so the kept lines keep their order and their repetitions. |
| UploadQuiz.NonBlankSingle | components/UploadQuiz.tsx:49 | A single line is kept exactly when it is not blank. |
| UploadQuiz.ParseFields | components/UploadQuiz.tsx:55-75 | Every error names the given line. It is malformed exactly when there are not six fields. The index error holds exactly when there are six fields and `parseInt` of the last is NaN or outside 0..3. The empty-option error holds exactly when the index is valid and one of fields 1-4 is blank. A success has:<br>- the given id;<br>- text = field 0 trimmed;<br>- option `k` = field `k+1` trimmed, non-empty;<br>- index = `parseInt` of field 5. |
| UploadQuiz.ParseLine | components/UploadQuiz.tsx:55-57 | Every error of a line names that line's number. |
| UploadQuiz.MalformedIffCommas | components/UploadQuiz.tsx:55-58 | A line is refused as malformed exactly when it does not hold five commas. |
| UploadQuiz.LineAt | components/UploadQuiz.tsx:54-57 | An error for line `k` (0-based) names line number `k+1`. |
| UploadQuiz.FirstFailure | components/UploadQuiz.tsx:54-57 | Every outcome before the returned position succeeded. The one at it (if any) failed. |
| UploadQuiz.ReadLines | components/UploadQuiz.tsx:54-76 | Either every line parsed, and question `k` is line `k`'s, or the error is the one of a line whose earlier lines all parsed. |
| UploadQuiz.Collect | components/UploadQuiz.tsx:54-76 | It succeeds exactly when no outcome failed, and then yields every value in order. Otherwise it gives the error of the first failure. |
| UploadQuiz.LastIndexOf | components/UploadQuiz.tsx:80 | The returned position holds the character and no later position does. None means the character does not occur. |
| UploadQuiz.StripExtension | components/UploadQuiz.tsx:80 | The name is unchanged, or it loses a final `.` plus a non-empty extension holding no `.` or `/`. |
| UploadQuiz.StripExtensionOf | components/UploadQuiz.tsx:80 | `base.ext` loses exactly `.ext` when `ext` is an extension. |
| UploadQuiz.StripExtensionNone | components/UploadQuiz.tsx:80 | A name in which no dot is followed by an extension is kept whole. |
| UploadQuiz.TitleFor | components/UploadQuiz.tsx:80 | The title is never empty. It is the stripped file name when that is non-empty, and "Uploaded Quiz" when it is empty. |
| UploadQuiz.ParseQuiz | components/UploadQuiz.tsx:48-86 | It fails with the empty-file error exactly when no non-blank line is left. On success:<br>- id `uploaded-<stamp>`;<br>- title from the file name;<br>- subject Imported, key stage KS3, difficulty Medium;<br>- one question per line, in order.<br>A line error names a line: every earlier line parsed and that line failed with this error. |
| UploadQuiz.ImportSucceedsIff | components/UploadQuiz.tsx:54-86 | All or nothing: the import succeeds exactly when some line is left and every line parses. |
| UploadQuiz.NoLinesIffBlank | components/UploadQuiz.tsx:49-52 | No line is left exactly when the whole text is whitespace. |
| UploadQuiz.EmptyFileIffBlank | components/UploadQuiz.tsx:49-52 | The empty-file error is reported for a blank text and for nothing else. |
| UploadQuiz.ImportedIdsDistinct | components/UploadQuiz.tsx:71 | The questions of one import have pairwise different ids. |
| ImportFormat.FormatLines | components/UploadQuiz.tsx:115 | One line per question; line `k` is the documented line for question `k`. |
| ImportFormat.NotInJoin | components/UploadQuiz.tsx:115 | Joining pieces adds no character other than the separator. |
| ImportFormat.DocumentIsJoin | components/UploadQuiz.tsx:114-115 | The written file is its lines joined by newlines, ending in a newline. |
| ImportFormat.NonBlankThenBlank | components/UploadQuiz.tsx:49 | Dropping blank lines keeps non-blank lines and drops a trailing blank one. |
| ImportRoundTrip.SplitFormatLine | components/UploadQuiz.tsx:115 | A writable question's line splits back into its six fields. It holds no newline and is not blank. |
| ImportRoundTrip.ParseFieldsOf | components/UploadQuiz.tsx:60-75 | The six fields of a writable question parse back to the question with the new id. |
| ImportRoundTrip.ParseFormatLine | components/UploadQuiz.tsx:55-75 | A writable question survives the trip through its line; only its id is replaced. |
| ImportRoundTrip.FormatLinesClean | components/UploadQuiz.tsx:115 | No written line holds a newline or is blank. |
| ImportRoundTrip.DocumentLines | components/UploadQuiz.tsx:49 | The lines the import reads from a written file are exactly the written lines. |
| ImportRoundTrip.ParseDocument | components/UploadQuiz.tsx:48-86 | Importing the file written for a non-empty list of writable questions succeeds. It yields those questions in order, question `k` with id `stamp+k`. |
| ImportRoundTrip.LineAtFormat | components/UploadQuiz.tsx:54-75 | A written line read as line `k` gives its question with id `stamp+k`. |
| ImportRoundTrip.SingleLine | components/UploadQuiz.tsx:48-86 | A file of one non-blank line plus newline imports as that line's outcome. |
| ImportRoundTrip.JoinSix | components/UploadQuiz.tsx:115 | Six fields joined by commas, written out piece by piece. |
| ImportRoundTrip.SampleFile | components/UploadQuiz.tsx:114-116 | `Q?,A,B,C,D,2` imports as one question with options A–D and answer 2. |
| ImportRoundTrip.SampleIndexOutOfRange | components/UploadQuiz.tsx:63-65 | `Q?,A,B,C,D,4` is refused with the answer-index error on line 1. |
| ImportRoundTrip.SampleEmptyOption | components/UploadQuiz.tsx:66-68 | `Q?,A,,C,D,1` is refused with the empty-option error on line 1. |
| ImportRoundTrip.SixFieldLine | components/UploadQuiz.tsx:55 | Six comma-free, newline-free fields, the first starting with a non-whitespace character, joined by commas form one non-blank line that splits back into those fields. |
| CreateQuizFlow.WithField | components/CreateQuizFlow.tsx:44-47 | The named detail takes the value and every other detail keeps its own. |
| CreateQuizFlow.FreshDraftId | components/CreateQuizFlow.tsx:94 | A fresh draft id starts with `draft-` followed by at least one character. |
| CreateQuizFlow.DraftId | components/CreateQuizFlow.tsx:94 | The id is never empty. It is the loaded id when that is present and non-empty, else a fresh draft id. |
| CreateQuizFlow.DraftKeyInjective | components/CreateQuizFlow.tsx:100 | Different draft ids are stored under different keys. |
| CreateQuizFlow.LoadedDraftKeyStable | components/CreateQuizFlow.tsx:94-100 | Re-saving a loaded quiz with an id writes the same key at any clock reading, so it overwrites. |
| CreateQuizFlow.FreshDraftKeysDistinct | components/CreateQuizFlow.tsx:94-100 | Fresh drafts saved at different clock readings go to different keys. |
| CreateQuizFlow.FreshDraftKeyApart | components/CreateQuizFlow.tsx:94-100 | A fresh draft's key differs from the key of any loaded id that does not start with `draft-`. |
| CreateQuizFlow.LocalStorage.SetItem | components/CreateQuizFlow.tsx:100 | The key holds the value; every other key is unchanged. |
| CreateQuizFlow.QuizEditor.constructor | components/CreateQuizFlow.tsx:17-29 | The initial state is:<br>- step 1, empty title;<br>- the first user subject or "";<br>- KS3, Medium;<br>- no questions;<br>- an empty pending question with four empty options and index 0. |
| CreateQuizFlow.QuizEditor.LoadInitialData | components/CreateQuizFlow.tsx:31-41 | A loaded quiz's four details and its questions replace the editor's. The step and the pending question stay. Without a quiz nothing changes. |
| CreateQuizFlow.QuizEditor.DetailChange | components/CreateQuizFlow.tsx:44-47 | Only the named detail changes. |
| CreateQuizFlow.QuizEditor.QuestionTextChange | components/CreateQuizFlow.tsx:49-51 | Only the pending text changes. |
| CreateQuizFlow.QuizEditor.OptionChange | components/CreateQuizFlow.tsx:53-57 | Only option `i` changes. The other three options, the text, the index, the details and the list stay. |
| CreateQuizFlow.QuizEditor.CorrectAnswerChange | components/CreateQuizFlow.tsx:59-61 | Picking option `i` of the select sets the pending index to `i` (parseInt reads the option's value back). |
| CreateQuizFlow.QuizEditor.AddQuestion | components/CreateQuizFlow.tsx:63-79 | It adds exactly when the trimmed text and all trimmed options are non-empty. It then appends one well-formed, complete question carrying the pending fields and the stamp, and resets the pending question. Otherwise the list and the pending question are unchanged. |
| CreateQuizFlow.QuizEditor.Submit | components/CreateQuizFlow.tsx:81-87 | Nothing is handed on exactly when there are no questions. Otherwise the id-less quiz of details and questions goes out with the loaded id as the draft to remove. |
| CreateQuizFlow.QuizEditor.SaveDraft | components/CreateQuizFlow.tsx:89-103 | Without a title the store is unchanged and the editor stays open. Otherwise the quiz carrying its draft id is stored under the draft id's key, every other key is unchanged, and the editor closes. |
| CreateQuizFlow.QuizEditor.ClickNext | components/CreateQuizFlow.tsx:213-216 | Step 1 moves to step 2 only when the title is non-empty; nothing else changes. |
| CreateQuizFlow.QuizEditor.ClickBack | components/CreateQuizFlow.tsx:199-203 | Back returns to step 1 unconditionally; nothing else changes. |
| App.RenderOnboarding | App.tsx:45-57 | Nothing without a user. Otherwise the onboarding form for the user's role, showing that user. |
| App.RenderDashboard | App.tsx:59-71 | Nothing without a user. Otherwise the dashboard for the user's role, showing that user. |
| App.RenderContent | App.tsx:73-86 | Role selection shows for its view and for sign-in without a role. The sign-in form shows for the picked role. Only onboarding and dashboard without a user show nothing. |
| App.Session.constructor | App.tsx:18-20 | The app opens on role selection with no role and no user. |
| App.Session.RoleSelect | App.tsx:22-25 | The role is set and sign-in follows; the user is unchanged; the invariant holds. |
| App.Session.AuthSuccess | App.tsx:27-32 | Without a role nothing changes. With one, the user becomes the signed-in record carrying that role, and onboarding follows. |
| App.Session.OnboardingComplete | App.tsx:34-37 | The user is replaced and the dashboard follows; the role is unchanged. |
| App.Session.Logout | App.tsx:39-43 | From any state: role selection, no role, no user. |
| App.ValidScreens | App.tsx:45-86 | In every state the handlers keep:<br>- something is on screen;<br>- sign-in is for the picked role;<br>- onboarding shows the form for the picked role and the signed-in user;<br>- the dashboard matches the user's role. |
| Onboarding.Without | components/OnboardingTeacher.tsx:20 | The value is gone, every other element is kept, and nothing is added. |
| Onboarding.WithoutConcat | components/OnboardingTeacher.tsx:20 | Filtering two runs filters each, so the kept elements keep their order. |
| Onboarding.WithoutAbsent | components/OnboardingTeacher.tsx:20 | Filtering out a value that does not occur changes nothing. |
| Onboarding.WithoutAppended | components/OnboardingTeacher.tsx:20 | Filtering out `v` from `xs + [v]` is filtering it out from `xs`. |
| Onboarding.WithoutNoDuplicates | components/OnboardingTeacher.tsx:20 | Filtering keeps a duplicate-free list duplicate-free. |
| Onboarding.Toggle | components/OnboardingTeacher.tsx:18-22 | A picked subject is filtered out (the result is `Without`, so every occurrence goes and the rest keep their order). An unpicked one is appended at the end. |
| Onboarding.ToggleNoDuplicates | components/OnboardingTeacher.tsx:18-22 | A toggle keeps the picked subjects free of duplicates. |
| Onboarding.ToggleTwice | components/OnboardingStudent.tsx:18-22 | Toggling an unpicked subject twice restores the list. |
| Onboarding.DropEmpty | components/OnboardingTeacher.tsx:30 | No kept piece is empty. |
| Onboarding.DropEmptyConcat | components/OnboardingTeacher.tsx:30 | Filtering two runs filters each, so the kept pieces keep their order. |
| Onboarding.DropEmptyOfNonEmpty | components/OnboardingTeacher.tsx:30 | Non-empty pieces are all kept. |
| Onboarding.DropEmptyKeeps | components/OnboardingTeacher.tsx:30 | Every kept piece is one of the input pieces. |
| Onboarding.ClassGroups | components/OnboardingTeacher.tsx:30 | No group is empty, has whitespace at its ends or holds a comma. |
| Onboarding.ClassGroupsClean | components/OnboardingTeacher.tsx:30 | Trimming and dropping empty comma-free pieces leaves only non-empty, trimmed, comma-free groups. |
| Onboarding.ClassGroupsOfPiece | components/OnboardingTeacher.tsx:30 | A comma-free piece gives its trimmed self, or nothing when blank. |
| Onboarding.ClassGroupsConcat | components/OnboardingTeacher.tsx:30 | The groups of `a,b` are the groups of `a` followed by those of `b`. With the lemma above, every non-blank piece is kept trimmed, in order. |
| Onboarding.ClassGroupsOfJoin | components/OnboardingTeacher.tsx:30 | A list of clean groups written with commas reads back as that list. |
| Onboarding.ClassGroupsIdempotent | components/OnboardingTeacher.tsx:30 | Re-reading the written-out groups changes nothing. |
| Onboarding.TeacherOnboarding.constructor | components/OnboardingTeacher.tsx:14-16 | The form opens with empty level, empty class-group text and no subject. |
| Onboarding.TeacherOnboarding.SetTeachingLevel | components/OnboardingTeacher.tsx:45 | Only the level changes. |
| Onboarding.TeacherOnboarding.SetClassGroups | components/OnboardingTeacher.tsx:78 | Only the class-group text changes. |
| Onboarding.TeacherOnboarding.HandleSubjectToggle | components/OnboardingTeacher.tsx:18-22 | The subjects become the toggle of the old ones and stay duplicate-free; nothing else changes. |
| Onboarding.TeacherOnboarding.Submit | components/OnboardingTeacher.tsx:24-33 | The user handed on sets key stage = level, subjects = selection and class groups = parsed text. Name, email, role and year group are kept. |
| Onboarding.StudentOnboarding.constructor | components/OnboardingStudent.tsx:14-16 | The form opens with empty key stage, an untouched year group and no subject. |
| Onboarding.StudentOnboarding.SetKeyStage | components/OnboardingStudent.tsx:46 | Only the key stage changes. |
| Onboarding.StudentOnboarding.SetYearGroup | components/OnboardingStudent.tsx:60 | The year group becomes what `parseInt` reads from the typed text; nothing else changes. |
| Onboarding.StudentOnboarding.HandleSubjectToggle | components/OnboardingStudent.tsx:18-22 | The subjects become the toggle of the old ones and stay duplicate-free; nothing else changes. |
| Onboarding.StudentOnboarding.Submit | components/OnboardingStudent.tsx:24-33 | The user handed on sets key stage and subjects from the form, and the year group to what `parseInt` read, or 0 when the field was never filled (`Number('')`). Name, email, role and class groups are kept. |

## Left out

- The file reading itself is outside the model: `FileReader`, its error callback, the drag-and-drop handlers and the `isParsing` flag. So are the `alert` calls and all rendering markup.
- UploadQuiz.ParseQuiz: one clock reading `stamp` serves every question id (`stamp + k`) and the quiz id. The source reads the clock again for each line and for the quiz id, so its ids can drift forward within one import.
- UploadQuiz.ParseLine: its own contract states only the line number of an error. The six-field condition is stated in terms of commas by `UploadQuiz.MalformedIffCommas`.
- Quiz and question ids are modelled as strings and integers. The source's `string | number` union for quiz ids is not modelled, and every quiz id the shown code creates is a string.
- The store holds quiz values. The JSON serialisation of `localStorage` is not modelled.
- The close button and the `onClose` callback are reduced to the `closed` result of `SaveDraft`.
- Changes to the editor's `initialData` after it opens are not modelled. `LoadInitialData` runs the effect once for the quiz the editor was created with.
- A change event whose target name is not one of the four detail fields cannot occur, because the form has only those four inputs. `DetailField` has only those four values.
- The browser's `required`, `min` and `max` form validation, which can stop a profile form from submitting, is not modelled. `Submit` models the handler.
- Each profile form's handler passes its result to `onComplete`, which the shell's `OnboardingComplete` receives. The two are modelled separately.
- The student's year field is a number input, so its text is decimal. `parseInt` without a radix is modelled as decimal and the `0x` prefix case is not modelled.
- JavaScript numbers are modelled only as integers or NaN.
- App.Session.AuthSuccess takes a full user record whose role it overwrites. This stands in for the `Omit<User, 'role'>` the sign-in form passes.
- The AI quiz generator is not part of this model: it calls an external service. The dashboards, the landing page and the other rendering-only components are not part of this model either.
