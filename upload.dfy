/**
 * The file-import parser of the upload dialog: the text of a `.csv`/`.txt` file becomes a quiz,
 * one question per non-blank line written `question text,option 1,option 2,option 3,option 4,index`,
 * or the whole import fails on the first bad line.
 */
module UploadQuiz {
  import opened Wrappers
  import opened Text
  import opened Types

  /** Why an import failed; `line` counts non-blank lines from 1. */
  datatype ParseError =
    | EmptyFile
    | MalformedLine(line: nat)
    | InvalidAnswerIndex(line: nat)
    | EmptyOption(line: nat)

  /** The message the dialog shows for an error. */
  function Message(e: ParseError): (m: string)
    ensures !e.EmptyFile? ==> "Line " + NatToString(e.line) <= m
    ensures !e.EmptyFile? ==> var p := "Line " + NatToString(e.line); |p| < |m| && !IsDigit(m[|p|])
  {
    if e.EmptyFile? then "The file is empty or contains no valid lines."
    else
      var p := "Line " + NatToString(e.line);
      // The number is followed by " is" or ":", never by another digit.
      var tail :=
        if e.MalformedLine? then [' '] + "is malformed. Each line must have 6 comma-separated parts."
        else if e.InvalidAnswerIndex? then [':'] + " The correct answer index must be a number between 0 and 3."
        else [':'] + " All four options must contain text.";
      assert (p + tail)[|p|] == tail[0];
      p + tail
  }

  /** The line number a message names reads back, with `parseInt`, as the error's line. */
  lemma MessageLineNumber(e: ParseError)
    requires !e.EmptyFile?
    ensures var m := Message(e); |m| > 5 && m[..5] == "Line " && ParseInt(m[5..]) == Finite(e.line)
  {
    var m := Message(e);
    var p := "Line " + NatToString(e.line);
    var rest := m[|p|..];
    assert m == p + rest;
    assert m[5..] == "" + NatToString(e.line) + rest;
    ParseIntOfNatToString("", e.line, rest);
  }

  /** The lines that are not blank, in their order. */
  function NonBlank(lines: seq<string>): (kept: seq<string>)
    ensures |kept| <= |lines|
    ensures forall k :: 0 <= k < |kept| ==> !Blank(kept[k])
  {
    if lines == [] then []
    else if Trim(lines[0]) == [] then NonBlank(lines[1..])
    else [lines[0]] + NonBlank(lines[1..])
  }

  /** `NonBlank` keeps lines of its input, and every line that is not blank. */
  lemma {:induction false} NonBlankKeeps(lines: seq<string>)
    ensures forall l <- NonBlank(lines) :: l in lines
    ensures forall l <- lines :: !Blank(l) ==> l in NonBlank(lines)
  {
    if lines != [] {
      NonBlankKeeps(lines[1..]);
      assert lines == [lines[0]] + lines[1..];
    }
  }

  /** Filtering two runs of lines is filtering each: kept lines keep their order and their number. */
  lemma {:induction false} NonBlankConcat(xs: seq<string>, ys: seq<string>)
    ensures NonBlank(xs + ys) == NonBlank(xs) + NonBlank(ys)
  {
    if xs == [] {
      assert xs + ys == ys;
    } else {
      assert (xs + ys)[0] == xs[0] && (xs + ys)[1..] == xs[1..] + ys;
      NonBlankConcat(xs[1..], ys);
    }
  }

  /** A single line is kept exactly when it is not blank. */
  lemma NonBlankSingle(line: string)
    ensures NonBlank([line]) == (if Blank(line) then [] else [line])
  {
    assert [line][1..] == [];
  }

  /** The lines a question is read from: the text split at newlines, blank lines dropped. */
  function QuestionLines(text: string): (lines: seq<string>)
    ensures NoneContain(lines, '\n')
    ensures forall k :: 0 <= k < |lines| ==> !Blank(lines[k])
  {
    var pieces := Split(text, '\n');
    NonBlankKeeps(pieces);
    var lines := NonBlank(pieces);
    assert forall k :: 0 <= k < |lines| ==> lines[k] in pieces;
    lines
  }

  /** What `parseInt` reads from the answer field is an index among the four options. */
  predicate ValidIndex(n: Number) {
    n.Finite? && 0 <= n.value <= 3
  }

  /** One of the four option fields (1 to 4) of a six-field line is blank. */
  predicate SomeOptionBlank(parts: seq<string>)
    requires |parts| == 6
  {
    Blank(parts[1]) || Blank(parts[2]) || Blank(parts[3]) || Blank(parts[4])
  }

  /**
   * The six comma-separated fields of a line, numbered `lineNo` in messages, read as the
   * question with identity `id`. The answer index is checked before the options, so a line
   * with both faults reports the index. The question text may be blank.
   */
  function ParseFields(parts: seq<string>, lineNo: nat, id: int): (r: Result<Question, ParseError>)
    ensures r.Err? ==> !r.error.EmptyFile? && r.error.line == lineNo
    ensures (r.Err? && r.error.MalformedLine?) <==> |parts| != 6
    ensures (r.Err? && r.error.InvalidAnswerIndex?) <==> |parts| == 6 && !ValidIndex(ParseInt(parts[5]))
    ensures (r.Err? && r.error.EmptyOption?) <==>
      |parts| == 6 && ValidIndex(ParseInt(parts[5])) && SomeOptionBlank(parts)
    ensures r.Ok? ==>
      && r.value.id == id && WellFormed(r.value)
      && r.value.text == Trim(parts[0])
      && (forall k :: 0 <= k < 4 ==> r.value.options[k] == Trim(parts[k + 1]) && r.value.options[k] != [])
      && Finite(r.value.correctAnswerIndex) == ParseInt(parts[5])
  {
    if |parts| != 6 then Err(MalformedLine(lineNo))
    else
      var options := parts[1..5];
      var index := ParseInt(parts[5]);
      if !ValidIndex(index) then Err(InvalidAnswerIndex(lineNo))
      else if SomeOptionBlank(parts) then Err(EmptyOption(lineNo))
      else
        var trimmed := TrimAll(options);
        assert forall k :: 0 <= k < 4 ==> trimmed[k] == Trim(parts[k + 1]) && trimmed[k] != [] by {
          forall k | 0 <= k < 4 ensures trimmed[k] == Trim(parts[k + 1]) && trimmed[k] != [] {
            assert options[k] == parts[k + 1] && !Blank(parts[k + 1]);
          }
        }
        Ok(Question(id, Trim(parts[0]), trimmed, index.value))
  }

  /** One non-blank line: its fields are the pieces between commas. */
  function ParseLine(line: string, lineNo: nat, id: int): (r: Result<Question, ParseError>)
    ensures r.Err? ==> !r.error.EmptyFile? && r.error.line == lineNo
  {
    ParseFields(Split(line, ','), lineNo, id)
  }

  /** A line is malformed exactly when it does not hold five commas. */
  lemma MalformedIffCommas(line: string, lineNo: nat, id: int)
    ensures var r := ParseLine(line, lineNo, id);
      (r.Err? && r.error.MalformedLine?) <==> multiset(line)[','] != 5
  {
    SplitCount(line, ',');
  }

  /** The outcome for line `k` (0-based) of `lines` in an import stamped `stamp`. */
  function LineAt(lines: seq<string>, k: nat, stamp: int): (r: Result<Question, ParseError>)
    requires k < |lines|
    ensures r.Err? ==> !r.error.EmptyFile? && r.error.line == k + 1
  {
    ParseLine(lines[k], k + 1, stamp + k)
  }

  /**
   * Every line read in order, line `k` (0-based) as number `k + 1` with identity `stamp + k`:
   * all the questions, or the error of the first line that fails.
   */
  function ReadLines(lines: seq<string>, stamp: int): (r: Result<seq<Question>, ParseError>)
    ensures r.Ok? ==>
      |r.value| == |lines| && forall k :: 0 <= k < |lines| ==> LineAt(lines, k, stamp) == Ok(r.value[k])
    ensures r.Err? ==>
      && !r.error.EmptyFile? && 1 <= r.error.line <= |lines|
      && LineAt(lines, r.error.line - 1, stamp) == Err(r.error)
      && forall k :: 0 <= k < r.error.line - 1 ==> LineAt(lines, k, stamp).Ok?
  {
    var outcomes := seq(|lines|, k requires 0 <= k < |lines| => LineAt(lines, k, stamp));
    match Collect(outcomes)
    case Err(e) =>
      var j := FirstFailure(outcomes);
      assert outcomes[j] == Err(e);
      assert LineAt(lines, j, stamp) == Err(e);
      assert forall k :: 0 <= k < j ==> outcomes[k] == LineAt(lines, k, stamp);
      Err(e)
    case Ok(questions) =>
      assert forall k :: 0 <= k < |lines| ==> outcomes[k] == LineAt(lines, k, stamp);
      Ok(questions)
  }

  /** The position of the first failed outcome, `|rs|` when there is none. */
  function FirstFailure<T, E>(rs: seq<Result<T, E>>): (j: nat)
    ensures j <= |rs| && (j < |rs| ==> rs[j].Err?)
    ensures forall k :: 0 <= k < j ==> rs[k].Ok?
  {
    if rs == [] || rs[0].Err? then 0 else 1 + FirstFailure(rs[1..])
  }

  /**
   * What `map` with a throwing callback yields: every value when every outcome succeeded,
   * otherwise the error of the first failure (later outcomes are never looked at).
   */
  function Collect<T, E>(rs: seq<Result<T, E>>): (r: Result<seq<T>, E>)
    ensures r.Ok? <==> FirstFailure(rs) == |rs|
    ensures r.Ok? ==> |r.value| == |rs| && forall k :: 0 <= k < |rs| ==> rs[k] == Ok(r.value[k])
    ensures r.Err? ==> FirstFailure(rs) < |rs| && rs[FirstFailure(rs)] == Err(r.error)
  {
    if rs == [] then Ok([])
    else
      match rs[0]
      case Err(e) => Err(e)
      case Ok(v) =>
        match Collect(rs[1..])
        case Err(e) => Err(e)
        case Ok(vs) => Ok([v] + vs)
  }

  /** The last position of `c` in `s`. */
  function LastIndexOf(s: string, c: char): (i: Option<nat>)
    ensures i.None? ==> c !in s
    ensures i.Some? ==> i.value < |s| && s[i.value] == c && c !in s[i.value + 1..]
  {
    if s == [] then None
    else if s[|s| - 1] == c then Some(|s| - 1)
    else
      var i := LastIndexOf(s[..|s| - 1], c);
      assert s == s[..|s| - 1] + [s[|s| - 1]];
      if i.Some? then
        assert s[i.value + 1..] == s[..|s| - 1][i.value + 1..] + [s[|s| - 1]];
        i
      else i
  }

  /**
   * `name.replace(/\.[^/.]+$/, "")`: the name without its final extension, a dot followed by
   * at least one character up to the end, none of them a dot or a slash.
   */
  function StripExtension(name: string): (base: string)
    ensures base == name || (
      && |base| < |name| && name[..|base|] == base && name[|base|] == '.'
      && IsExtension(name[|base| + 1..]))
  {
    match LastIndexOf(name, '.')
    case None => name
    case Some(i) => if i + 1 < |name| && '/' !in name[i + 1..] then name[..i] else name
  }

  /** An extension as the pattern matches it: non-empty, without dots or slashes. */
  predicate IsExtension(ext: string) {
    ext != [] && '.' !in ext && '/' !in ext
  }

  /** A file name ending in an extension loses exactly that extension. */
  lemma StripExtensionOf(base: string, ext: string)
    requires IsExtension(ext)
    ensures StripExtension(base + "." + ext) == base
  {
    var name := base + "." + ext;
    assert name[|base|] == '.' && name[|base| + 1..] == ext;
    var i := LastIndexOf(name, '.');
    assert i == Some(|base|);
    assert name[..|base|] == base;
  }

  /** A file name whose last dot is not followed by an extension is kept whole. */
  lemma StripExtensionNone(name: string)
    requires forall i :: 0 <= i < |name| && name[i] == '.' ==> !IsExtension(name[i + 1..])
    ensures StripExtension(name) == name
  {
  }

  /** The quiz title: the file name without its extension, or "Uploaded Quiz" if that is empty. */
  function TitleFor(fileName: string): (title: string)
    ensures title != []
    ensures StripExtension(fileName) != [] ==> title == StripExtension(fileName)
    ensures StripExtension(fileName) == [] ==> title == "Uploaded Quiz"
  {
    var base := StripExtension(fileName);
    if base == [] then "Uploaded Quiz" else base
  }

  /**
   * The whole import: the quiz built from every non-blank line of `text`, or the error of the
   * first line that fails, or `EmptyFile` when no line is left. `stamp` is the clock reading
   * that the question identities and the quiz identity are made from.
   */
  function ParseQuiz(text: string, fileName: string, stamp: nat): (r: Result<Quiz, ParseError>)
    ensures r == Err(EmptyFile) <==> QuestionLines(text) == []
    ensures r.Ok? ==>
      var lines := QuestionLines(text);
      && r.value.id == Some("uploaded-" + NatToString(stamp))
      && r.value.title == TitleFor(fileName)
      && r.value.subject == "Imported" && r.value.keyStage == "KS3" && r.value.difficulty == "Medium"
      && |r.value.questions| == |lines|
      && forall k :: 0 <= k < |lines| ==> LineAt(lines, k, stamp) == Ok(r.value.questions[k])
    ensures r.Err? && !r.error.EmptyFile? ==>
      var lines := QuestionLines(text);
      && 1 <= r.error.line <= |lines|
      && LineAt(lines, r.error.line - 1, stamp) == Err(r.error)
      && forall k :: 0 <= k < r.error.line - 1 ==> LineAt(lines, k, stamp).Ok?
  {
    var lines := QuestionLines(text);
    if lines == [] then Err(EmptyFile)
    else
      match ReadLines(lines, stamp)
      case Err(e) => Err(e)
      case Ok(questions) =>
        Ok(Quiz(Some("uploaded-" + NatToString(stamp)), TitleFor(fileName),
                "Imported", "KS3", "Medium", questions))
  }

  /** An import succeeds exactly when some line is left and every line is read as a question. */
  lemma ImportSucceedsIff(text: string, fileName: string, stamp: nat)
    ensures var lines := QuestionLines(text);
      ParseQuiz(text, fileName, stamp).Ok? <==>
        lines != [] && forall k :: 0 <= k < |lines| ==> LineAt(lines, k, stamp).Ok?
  {
    var r := ParseQuiz(text, fileName, stamp);
    var lines := QuestionLines(text);
    if r.Ok? {
      assert lines != [];
    } else if r.error.EmptyFile? {
      assert lines == [];
    } else {
      var j := r.error.line - 1;
      assert 0 <= j < |lines| && LineAt(lines, j, stamp).Err?;
    }
  }

  /** Nothing is left of a text exactly when every character of it is whitespace. */
  lemma {:induction false} NoLinesIffBlank(text: string)
    ensures QuestionLines(text) == [] <==> Blank(text)
  {
    var lines := Split(text, '\n');
    JoinOfSplit(text, '\n');
    BlankJoin(lines);
    NonBlankKeeps(lines);
    var kept := NonBlank(lines);
    if kept != [] {
      assert kept[0] in kept;
    }
  }

  /** Newline-joined lines are blank exactly when every line is. */
  lemma {:induction false} BlankJoin(lines: seq<string>)
    ensures Blank(Join(lines, '\n')) <==> forall l <- lines :: Blank(l)
  {
    if |lines| > 1 {
      BlankJoin(lines[1..]);
      var rest := Join(lines[1..], '\n');
      var s := lines[0] + ['\n'] + rest;
      assert s[..|lines[0]|] == lines[0];
      assert s[|lines[0]| + 1..] == rest;
      if Blank(lines[0]) && Blank(rest) {
        forall k | 0 <= k < |s| ensures IsWhitespace(s[k]) {
          if k < |lines[0]| {
            assert s[k] == lines[0][k];
          } else if k > |lines[0]| {
            assert s[k] == rest[k - |lines[0]| - 1];
          }
        }
      }
      assert lines == [lines[0]] + lines[1..];
    }
  }

  /** An empty or blank file is refused, and so is only such a file. */
  lemma EmptyFileIffBlank(text: string, fileName: string, stamp: nat)
    ensures ParseQuiz(text, fileName, stamp) == Err(EmptyFile) <==> Blank(text)
  {
    NoLinesIffBlank(text);
  }

  /** The questions of an import have pairwise different identities. */
  lemma ImportedIdsDistinct(text: string, fileName: string, stamp: nat, j: nat, k: nat)
    requires ParseQuiz(text, fileName, stamp).Ok?
    requires j < k < |ParseQuiz(text, fileName, stamp).value.questions|
    ensures ParseQuiz(text, fileName, stamp).value.questions[j].id
         != ParseQuiz(text, fileName, stamp).value.questions[k].id
  {
    var lines := QuestionLines(text);
    assert LineAt(lines, j, stamp).Ok? && LineAt(lines, k, stamp).Ok?;
  }
}
