/**
 * The file format the upload dialog documents, `question text,option 1,option 2,option 3,option 4,index`
 * one question per line, written out for a list of questions; and what the parser makes of it:
 * every question comes back, in order, with the identity the import assigns.
 */
module ImportFormat {
  import opened Wrappers
  import opened Text
  import opened Types
  import opened UploadQuiz

  /**
   * A question whose text and options the format carries unchanged: already trimmed,
   * no comma or newline in them, no empty option.
   */
  predicate Writable(q: Question) {
    Cell(q.text) && forall k :: 0 <= k < |q.options| ==> q.options[k] != [] && Cell(q.options[k])
  }

  /** A field the format carries unchanged: trimmed, without comma or newline. */
  predicate Cell(s: string) {
    Trimmed(s) && ',' !in s && '\n' !in s
  }

  /** The six fields of a question's line. */
  function Fields(q: Question): seq<string>
    requires WellFormed(q)
  {
    [q.text] + q.options + [NatToString(q.correctAnswerIndex)]
  }

  /** The line of the documented format for a question. */
  function FormatLine(q: Question): string
    requires WellFormed(q)
  {
    Join(Fields(q), ',')
  }

  /** A file holding the questions, each line ended by a newline. */
  function Document(qs: seq<Question>): string
    requires forall k :: 0 <= k < |qs| ==> WellFormed(qs[k])
  {
    if qs == [] then [] else FormatLine(qs[0]) + "\n" + Document(qs[1..])
  }

  /** The lines of `Document(qs)` before the final newline. */
  function FormatLines(qs: seq<Question>): (lines: seq<string>)
    requires forall k :: 0 <= k < |qs| ==> WellFormed(qs[k])
    ensures |lines| == |qs| && forall k :: 0 <= k < |qs| ==> lines[k] == FormatLine(qs[k])
  {
    if qs == [] then [] else [FormatLine(qs[0])] + FormatLines(qs[1..])
  }

  /** A character that is in no piece and is not the separator is not in the joined string. */
  lemma {:induction false} NotInJoin(parts: seq<string>, sep: char, c: char)
    requires c != sep && NoneContain(parts, c)
    ensures c !in Join(parts, sep)
  {
    if |parts| > 1 {
      NotInJoin(parts[1..], sep, c);
    }
  }

  /** The document is its lines joined by newlines, with an empty last piece after the final newline. */
  lemma {:induction false} DocumentIsJoin(qs: seq<Question>)
    requires forall k :: 0 <= k < |qs| ==> WellFormed(qs[k])
    ensures Document(qs) == Join(FormatLines(qs) + [""], '\n')
  {
    if qs != [] {
      DocumentIsJoin(qs[1..]);
      assert (FormatLines(qs) + [""])[1..] == FormatLines(qs[1..]) + [""];
    }
  }

  /** Dropping blank lines keeps a run of non-blank lines and drops blank lines after it. */
  lemma {:induction false} NonBlankThenBlank(lines: seq<string>, tail: string)
    requires forall k :: 0 <= k < |lines| ==> !Blank(lines[k])
    requires Blank(tail)
    ensures NonBlank(lines + [tail]) == lines
  {
    if lines == [] {
      assert NonBlank([tail][1..]) == [];
    } else {
      assert (lines + [tail])[1..] == lines[1..] + [tail];
      NonBlankThenBlank(lines[1..], tail);
      assert [lines[0]] + lines[1..] == lines;
    }
  }
}
