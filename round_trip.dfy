/**
 * What the import makes of a file written in the documented format: every question comes back,
 * in order, with the identity the import assigns; and three worked example files of one line each.
 */
module ImportRoundTrip {
  import opened Wrappers
  import opened Text
  import opened Types
  import opened UploadQuiz
  import opened ImportFormat

  /** The fields of a writable question are read back from its line. */
  lemma SplitFormatLine(q: Question)
    requires WellFormed(q) && Writable(q)
    ensures Split(FormatLine(q), ',') == Fields(q)
    ensures '\n' !in FormatLine(q) && !Blank(FormatLine(q))
  {
    var fields := Fields(q);
    forall k | 0 <= k < 6 ensures ',' !in fields[k] && '\n' !in fields[k] {
      if 1 <= k < 5 {
        assert fields[k] == q.options[k - 1] && Cell(q.options[k - 1]);
      }
    }
    SplitOfJoin(fields, ',');
    NotInJoin(fields, ',', '\n');
    var line := FormatLine(q);
    SplitCount(line, ',');
    assert multiset(line)[','] == 5;
    assert ',' in line;
  }

  /** The fields of a writable question are read back as the question. */
  lemma ParseFieldsOf(q: Question, lineNo: nat, id: int)
    requires WellFormed(q) && Writable(q)
    ensures ParseFields(Fields(q), lineNo, id) == Ok(q.(id := id))
  {
    var parts := Fields(q);
    ParseIntOfNatToString("", q.correctAnswerIndex, "");
    assert "" + parts[5] + "" == parts[5];
    TrimOfTrimmed(q.text);
    assert parts[1..5] == q.options;
    forall k | 0 <= k < 4 ensures Trimmed(q.options[k]) && q.options[k] != [] {
      assert Cell(q.options[k]);
    }
    TrimAllOfTrimmed(q.options);
  }

  /** A writable question survives the trip through its line; only its identity is replaced. */
  lemma ParseFormatLine(q: Question, lineNo: nat, id: int)
    requires WellFormed(q) && Writable(q)
    ensures ParseLine(FormatLine(q), lineNo, id) == Ok(q.(id := id))
  {
    SplitFormatLine(q);
    ParseFieldsOf(q, lineNo, id);
  }

  /** Every line of the document is one line, not blank. */
  lemma FormatLinesClean(qs: seq<Question>)
    requires forall k :: 0 <= k < |qs| ==> WellFormed(qs[k]) && Writable(qs[k])
    ensures NoneContain(FormatLines(qs) + [""], '\n')
    ensures forall k :: 0 <= k < |qs| ==> !Blank(FormatLines(qs)[k])
  {
    var lines := FormatLines(qs);
    forall k | 0 <= k < |qs| ensures '\n' !in lines[k] && !Blank(lines[k]) {
      SplitFormatLine(qs[k]);
    }
    forall k | 0 <= k < |lines + [""]| ensures '\n' !in (lines + [""])[k] {
      if k < |lines| {
        assert (lines + [""])[k] == lines[k];
      }
    }
  }

  /** The lines an import reads from the document are the questions' lines. */
  lemma DocumentLines(qs: seq<Question>)
    requires forall k :: 0 <= k < |qs| ==> WellFormed(qs[k]) && Writable(qs[k])
    ensures QuestionLines(Document(qs)) == FormatLines(qs)
  {
    var lines := FormatLines(qs);
    FormatLinesClean(qs);
    DocumentIsJoin(qs);
    SplitOfJoin(lines + [""], '\n');
    NonBlankThenBlank(lines, "");
  }

  /**
   * Importing the document of a non-empty list of writable questions yields those questions,
   * in order, the `k`-th with identity `stamp + k`.
   */
  lemma ParseDocument(qs: seq<Question>, fileName: string, stamp: nat)
    requires qs != [] && forall k :: 0 <= k < |qs| ==> WellFormed(qs[k]) && Writable(qs[k])
    ensures var r := ParseQuiz(Document(qs), fileName, stamp);
      && r.Ok? && |r.value.questions| == |qs|
      && forall k :: 0 <= k < |qs| ==> r.value.questions[k] == qs[k].(id := stamp + k)
  {
    var lines := FormatLines(qs);
    DocumentLines(qs);
    forall k | 0 <= k < |qs| ensures LineAt(lines, k, stamp) == Ok(qs[k].(id := stamp + k)) {
      LineAtFormat(lines, qs[k], k, stamp);
    }
    ImportSucceedsIff(Document(qs), fileName, stamp);
  }

  /** A line written for `q`, read as line `k`, is read back as `q` with identity `stamp + k`. */
  lemma LineAtFormat(lines: seq<string>, q: Question, k: nat, stamp: nat)
    requires k < |lines| && WellFormed(q) && Writable(q) && lines[k] == FormatLine(q)
    ensures LineAt(lines, k, stamp) == Ok(q.(id := stamp + k))
  {
    ParseFormatLine(q, k + 1, stamp + k);
  }

  /** A file of one non-blank line ended by a newline is exactly that line's outcome. */
  lemma SingleLine(line: string, fileName: string, stamp: nat)
    requires '\n' !in line && !Blank(line)
    ensures var r := ParseQuiz(line + "\n", fileName, stamp);
      match ParseLine(line, 1, stamp)
      case Ok(q) => r.Ok? && r.value.questions == [q]
      case Err(e) => r == Err(e)
  {
    assert line + "\n" == Join([line, ""], '\n');
    SplitOfJoin([line, ""], '\n');
    NonBlankThenBlank([line], "");
    assert QuestionLines(line + "\n") == [line];
  }

  /** Six fields joined by commas, written out. */
  lemma JoinSix(p: seq<string>)
    requires |p| == 6
    ensures Join(p, ',') == p[0] + "," + (p[1] + "," + (p[2] + "," + (p[3] + "," + (p[4] + "," + p[5]))))
  {
    assert Join(p[5..], ',') == p[5];
    var j4 := Join(p[4..], ',');
    assert p[4..][1..] == p[5..];
    assert j4 == p[4] + "," + p[5];
    var j3 := Join(p[3..], ',');
    assert p[3..][1..] == p[4..];
    assert j3 == p[3] + "," + j4;
    var j2 := Join(p[2..], ',');
    assert p[2..][1..] == p[3..];
    assert j2 == p[2] + "," + j3;
    var j1 := Join(p[1..], ',');
    assert p[1..][1..] == p[2..];
    assert j1 == p[1] + "," + j2;
    assert Join(p, ',') == p[0] + "," + j1;
  }

  /** The file is the given line ended by a newline. */
  lemma LineOfSample(fields: seq<string>, text: string)
    requires |fields| == 6
    requires text == fields[0] + "," + (fields[1] + "," + (fields[2] + "," + (fields[3] + ","
      + (fields[4] + "," + fields[5])))) + "\n"
    ensures text == Join(fields, ',') + "\n"
  {
    JoinSix(fields);
  }

  /** A worked example: a well-formed line with four options and answer index 2. */
  lemma SampleFile(text: string, fileName: string, stamp: nat)
    requires text == "Q?,A,B,C,D,2\n"
    ensures var r := ParseQuiz(text, fileName, stamp);
      r.Ok? && r.value.questions == [Question(stamp, "Q?", ["A", "B", "C", "D"], 2)]
  {
    var q := Question(stamp, "Q?", ["A", "B", "C", "D"], 2);
    SampleQuestion(q, stamp);
    LineOfSample(Fields(q), text);
    ParseFormatLine(q, 1, stamp);
    SplitFormatLine(q);
    SingleLine(FormatLine(q), fileName, stamp);
  }

  lemma SampleQuestion(q: Question, stamp: nat)
    requires q == Question(stamp, "Q?", ["A", "B", "C", "D"], 2)
    ensures WellFormed(q) && Writable(q) && Fields(q) == ["Q?", "A", "B", "C", "D", "2"]
  {
  }

  /** An answer index of 4 is refused on line 1. */
  lemma SampleIndexOutOfRange(text: string, fileName: string, stamp: nat)
    requires text == "Q?,A,B,C,D,4\n"
    ensures ParseQuiz(text, fileName, stamp) == Err(InvalidAnswerIndex(1))
  {
    var fields := ["Q?", "A", "B", "C", "D", "4"];
    LineOfSample(fields, text);
    var line := Join(fields, ',');
    QuestionMark(fields[0]);
    SixFieldLine(fields, line);
    IndexOutOfRangeFields(fields, stamp);
    SingleLine(line, fileName, stamp);
  }

  lemma IndexOutOfRangeFields(fields: seq<string>, stamp: nat)
    requires fields == ["Q?", "A", "B", "C", "D", "4"]
    ensures ParseFields(fields, 1, stamp) == Err(InvalidAnswerIndex(1))
  {
  }

  /** An empty option is refused on line 1. */
  lemma SampleEmptyOption(text: string, fileName: string, stamp: nat)
    requires text == "Q?,A,,C,D,1\n"
    ensures ParseQuiz(text, fileName, stamp) == Err(EmptyOption(1))
  {
    var fields := ["Q?", "A", "", "C", "D", "1"];
    LineOfSample(fields, text);
    var line := Join(fields, ',');
    QuestionMark(fields[0]);
    SixFieldLine(fields, line);
    EmptyOptionFields(fields, stamp);
    SingleLine(line, fileName, stamp);
  }

  lemma EmptyOptionFields(fields: seq<string>, stamp: nat)
    requires fields == ["Q?", "A", "", "C", "D", "1"]
    ensures ParseFields(fields, 1, stamp) == Err(EmptyOption(1))
  {
    assert NatToString(1) == "1";
    ParseIntOfNatToString("", 1, "");
    assert "" + "1" + "" == "1";
    assert Trim(fields[1..5][1]) == [];
  }

  /** The worked examples' question text starts with a letter. */
  lemma QuestionMark(text: string)
    requires text == "Q?"
    ensures text != [] && !IsWhitespace(text[0])
  {
  }

  /**
   * Six comma-free, newline-free fields whose first starts with a non-whitespace character,
   * joined by commas: a single line, not blank, whose comma-separated pieces are the fields.
   */
  lemma SixFieldLine(fields: seq<string>, line: string)
    requires |fields| == 6 && fields[0] != [] && !IsWhitespace(fields[0][0]) && line == Join(fields, ',')
    requires NoneContain(fields, ',') && NoneContain(fields, '\n')
    ensures Split(line, ',') == fields && '\n' !in line && !Blank(line)
  {
    SplitOfJoin(fields, ',');
    NotInJoin(fields, ',', '\n');
    assert line == fields[0] + [','] + Join(fields[1..], ',');
    assert line[0] == fields[0][0];
  }
}
