/**
 * The profile forms shown after sign-up. Both the teacher and the student form keep a list of
 * picked subjects that a click toggles; the teacher form also reads its class groups from
 * comma-separated text; submitting either form hands back the user with the profile fields set.
 */
module Onboarding {
  import opened Wrappers
  import opened Text
  import opened Types

  /** No value occurs twice. */
  predicate NoDuplicates(xs: seq<string>) {
    forall i, j :: 0 <= i < j < |xs| ==> xs[i] != xs[j]
  }

  /** `xs.filter(x => x !== v)`: every element other than `v`, in order. */
  function Without(xs: seq<string>, v: string): (r: seq<string>)
    ensures |r| <= |xs| && v !in r
    ensures forall x :: x in r <==> x in xs && x != v
  {
    if xs == [] then []
    else if xs[0] == v then Without(xs[1..], v)
    else [xs[0]] + Without(xs[1..], v)
  }

  /** Filtering two runs is filtering each: the kept elements stay in their order. */
  lemma {:induction false} WithoutConcat(xs: seq<string>, ys: seq<string>, v: string)
    ensures Without(xs + ys, v) == Without(xs, v) + Without(ys, v)
  {
    if xs == [] {
      assert xs + ys == ys;
    } else {
      assert (xs + ys)[0] == xs[0] && (xs + ys)[1..] == xs[1..] + ys;
      WithoutConcat(xs[1..], ys, v);
    }
  }

  /** Removing a value that does not occur changes nothing. */
  lemma {:induction false} WithoutAbsent(xs: seq<string>, v: string)
    requires v !in xs
    ensures Without(xs, v) == xs
  {
    if xs != [] {
      WithoutAbsent(xs[1..], v);
      assert [xs[0]] + xs[1..] == xs;
    }
  }

  /** Removing `v` from a list that ends in `v` is removing it from the rest. */
  lemma {:induction false} WithoutAppended(xs: seq<string>, v: string)
    ensures Without(xs + [v], v) == Without(xs, v)
  {
    if xs != [] {
      assert (xs + [v])[1..] == xs[1..] + [v];
      WithoutAppended(xs[1..], v);
    }
  }

  /** Filtering keeps a list free of duplicates. */
  lemma {:induction false} WithoutNoDuplicates(xs: seq<string>, v: string)
    requires NoDuplicates(xs)
    ensures NoDuplicates(Without(xs, v))
  {
    if xs != [] {
      WithoutNoDuplicates(xs[1..], v);
      if xs[0] != v {
        var rest := Without(xs[1..], v);
        assert xs[0] !in xs[1..];
        assert xs[0] !in rest;
        var r := [xs[0]] + rest;
        forall i, j | 0 <= i < j < |r| ensures r[i] != r[j] {
          if i == 0 {
            assert r[j] == rest[j - 1] && r[j] in rest;
          } else {
            assert r[i] == rest[i - 1] && r[j] == rest[j - 1];
          }
        }
      }
    }
  }

  /**
   * The subject toggle both forms share: a picked subject is dropped, every occurrence of it;
   * a subject not picked yet is added at the end.
   */
  function Toggle(selected: seq<string>, subject: string): (r: seq<string>)
    ensures subject in selected ==> r == Without(selected, subject)
    ensures subject in selected ==> subject !in r && forall x :: x in r <==> x in selected && x != subject
    ensures subject !in selected ==> r == selected + [subject]
  {
    if subject in selected then Without(selected, subject) else selected + [subject]
  }

  /** A toggle keeps the picked subjects free of duplicates. */
  lemma ToggleNoDuplicates(selected: seq<string>, subject: string)
    requires NoDuplicates(selected)
    ensures NoDuplicates(Toggle(selected, subject))
  {
    if subject in selected {
      WithoutNoDuplicates(selected, subject);
    } else {
      var r := selected + [subject];
      forall i, j | 0 <= i < j < |r| ensures r[i] != r[j] {
        if j == |selected| {
          assert r[i] == selected[i] && r[i] in selected;
        } else {
          assert r[i] == selected[i] && r[j] == selected[j];
        }
      }
    }
  }

  /** Toggling a subject that is not picked, twice, leaves the pick as it was. */
  lemma ToggleTwice(selected: seq<string>, subject: string)
    requires subject !in selected
    ensures Toggle(Toggle(selected, subject), subject) == selected
  {
    WithoutAppended(selected, subject);
    WithoutAbsent(selected, subject);
  }

  /** `pieces.filter(Boolean)`: the non-empty pieces, in order. */
  function DropEmpty(pieces: seq<string>): (r: seq<string>)
    ensures |r| <= |pieces|
    ensures forall k :: 0 <= k < |r| ==> r[k] != []
  {
    if pieces == [] then []
    else if pieces[0] == [] then DropEmpty(pieces[1..])
    else [pieces[0]] + DropEmpty(pieces[1..])
  }

  /** Filtering two runs of pieces is filtering each: the kept pieces stay in their order. */
  lemma {:induction false} DropEmptyConcat(xs: seq<string>, ys: seq<string>)
    ensures DropEmpty(xs + ys) == DropEmpty(xs) + DropEmpty(ys)
  {
    if xs == [] {
      assert xs + ys == ys;
    } else {
      assert (xs + ys)[0] == xs[0] && (xs + ys)[1..] == xs[1..] + ys;
      DropEmptyConcat(xs[1..], ys);
    }
  }

  /** Pieces that are all non-empty are all kept. */
  lemma {:induction false} DropEmptyOfNonEmpty(pieces: seq<string>)
    requires forall k :: 0 <= k < |pieces| ==> pieces[k] != []
    ensures DropEmpty(pieces) == pieces
  {
    if pieces != [] {
      DropEmptyOfNonEmpty(pieces[1..]);
      assert [pieces[0]] + pieces[1..] == pieces;
    }
  }

  /** Each kept piece is one of the input pieces. */
  lemma {:induction false} DropEmptyKeeps(pieces: seq<string>)
    ensures forall k :: 0 <= k < |DropEmpty(pieces)| ==> DropEmpty(pieces)[k] in pieces
  {
    if pieces != [] {
      DropEmptyKeeps(pieces[1..]);
      assert forall p <- pieces[1..] :: p in pieces;
    }
  }

  /**
   * The teacher's class groups: the text split at commas, each piece trimmed, empty pieces
   * dropped. No group is empty, has whitespace at its ends or holds a comma.
   */
  function ClassGroups(text: string): (groups: seq<string>)
    ensures forall k :: 0 <= k < |groups| ==> groups[k] != [] && Trimmed(groups[k]) && ',' !in groups[k]
  {
    var pieces := Split(text, ',');
    var trimmed := TrimAll(pieces);
    var groups := DropEmpty(trimmed);
    ClassGroupsClean(pieces, trimmed, groups);
    groups
  }

  lemma ClassGroupsClean(pieces: seq<string>, trimmed: seq<string>, groups: seq<string>)
    requires NoneContain(pieces, ',') && trimmed == TrimAll(pieces) && groups == DropEmpty(trimmed)
    ensures forall k :: 0 <= k < |groups| ==> groups[k] != [] && Trimmed(groups[k]) && ',' !in groups[k]
  {
    DropEmptyKeeps(trimmed);
    forall k | 0 <= k < |groups| ensures Trimmed(groups[k]) && ',' !in groups[k] {
      var j :| 0 <= j < |trimmed| && trimmed[j] == groups[k];
      TrimKeepsOut(pieces[j], ',');
    }
  }

  /** A piece without commas gives its trimmed self as a group, or nothing when it is blank. */
  lemma ClassGroupsOfPiece(p: string)
    requires ',' !in p
    ensures ClassGroups(p) == (if Blank(p) then [] else [Trim(p)])
  {
    SplitWithoutSeparator(p, ',');
  }

  /** The pieces on either side of a comma are read independently, the left ones first. */
  lemma ClassGroupsConcat(a: string, b: string)
    ensures ClassGroups(a + "," + b) == ClassGroups(a) + ClassGroups(b)
  {
    SplitConcat(a, b, ',');
    TrimAllConcat(Split(a, ','), Split(b, ','));
    DropEmptyConcat(TrimAll(Split(a, ',')), TrimAll(Split(b, ',')));
  }

  /**
   * Class groups written back as comma-separated text are read back unchanged; so reading the
   * list back from its own text gives the same list.
   */
  lemma ClassGroupsOfJoin(groups: seq<string>)
    requires forall k :: 0 <= k < |groups| ==> groups[k] != [] && Trimmed(groups[k]) && ',' !in groups[k]
    ensures ClassGroups(Join(groups, ',')) == groups
  {
    if groups != [] {
      SplitOfJoin(groups, ',');
      TrimAllOfTrimmed(groups);
      DropEmptyOfNonEmpty(groups);
    }
  }

  /** Reading class groups from the text of a read list changes nothing. */
  lemma ClassGroupsIdempotent(text: string)
    ensures ClassGroups(Join(ClassGroups(text), ',')) == ClassGroups(text)
  {
    ClassGroupsOfJoin(ClassGroups(text));
  }

  /** What the teacher form holds: a teaching level, the class-group text and the picked subjects. */
  class TeacherOnboarding {
    var teachingLevel: string
    var classGroups: string
    var selectedSubjects: seq<string>

    predicate Valid()
      reads this
    {
      NoDuplicates(selectedSubjects)
    }

    /** The form opens blank, with no subject picked. */
    constructor ()
      ensures Valid()
      ensures teachingLevel == "" && classGroups == "" && selectedSubjects == []
    {
      teachingLevel := "";
      classGroups := "";
      selectedSubjects := [];
    }

    method SetTeachingLevel(level: string)
      modifies this
      ensures teachingLevel == level
      ensures classGroups == old(classGroups) && selectedSubjects == old(selectedSubjects)
    {
      teachingLevel := level;
    }

    method SetClassGroups(text: string)
      modifies this
      ensures classGroups == text
      ensures teachingLevel == old(teachingLevel) && selectedSubjects == old(selectedSubjects)
    {
      classGroups := text;
    }

    /** A click on a subject button. */
    method HandleSubjectToggle(subject: string)
      requires Valid()
      modifies this
      ensures Valid()
      ensures selectedSubjects == Toggle(old(selectedSubjects), subject)
      ensures teachingLevel == old(teachingLevel) && classGroups == old(classGroups)
    {
      ToggleNoDuplicates(selectedSubjects, subject);
      selectedSubjects := Toggle(selectedSubjects, subject);
    }

    /**
     * The user handed on by the form: the given user with key stage, subjects and class groups
     * taken from the form; every other field as it was.
     */
    method Submit(user: User) returns (updated: User)
      ensures updated.name == user.name && updated.email == user.email && updated.role == user.role
      ensures updated.yearGroup == user.yearGroup
      ensures updated.keyStage == Some(teachingLevel) && updated.subjects == Some(selectedSubjects)
      ensures updated.classGroups == Some(ClassGroups(classGroups))
    {
      updated := user.(keyStage := Some(teachingLevel), subjects := Some(selectedSubjects),
                       classGroups := Some(ClassGroups(classGroups)));
    }
  }

  /** The year-group field: empty until something is typed, then what `parseInt` made of it. */
  datatype YearInput = Unset | Entered(value: Number)

  /** What the student form holds: a key stage, the year-group field and the picked subjects. */
  class StudentOnboarding {
    var keyStage: string
    var yearGroup: YearInput
    var selectedSubjects: seq<string>

    predicate Valid()
      reads this
    {
      NoDuplicates(selectedSubjects)
    }

    /** The form opens blank, with no subject picked. */
    constructor ()
      ensures Valid()
      ensures keyStage == "" && yearGroup == Unset && selectedSubjects == []
    {
      keyStage := "";
      yearGroup := Unset;
      selectedSubjects := [];
    }

    method SetKeyStage(stage: string)
      modifies this
      ensures keyStage == stage
      ensures yearGroup == old(yearGroup) && selectedSubjects == old(selectedSubjects)
    {
      keyStage := stage;
    }

    /** Typing in the year-group field stores what `parseInt` reads from the text. */
    method SetYearGroup(text: string)
      modifies this
      ensures yearGroup == Entered(ParseInt(text))
      ensures keyStage == old(keyStage) && selectedSubjects == old(selectedSubjects)
    {
      yearGroup := Entered(ParseInt(text));
    }

    /** A click on a subject button. */
    method HandleSubjectToggle(subject: string)
      requires Valid()
      modifies this
      ensures Valid()
      ensures selectedSubjects == Toggle(old(selectedSubjects), subject)
      ensures keyStage == old(keyStage) && yearGroup == old(yearGroup)
    {
      ToggleNoDuplicates(selectedSubjects, subject);
      selectedSubjects := Toggle(selectedSubjects, subject);
    }

    /**
     * The user handed on by the form: the given user with key stage, numeric year group and
     * subjects taken from the form; every other field as it was.
     */
    method Submit(user: User) returns (updated: User)
      ensures updated.name == user.name && updated.email == user.email && updated.role == user.role
      ensures updated.classGroups == user.classGroups
      ensures updated.keyStage == Some(keyStage) && updated.subjects == Some(selectedSubjects)
      ensures yearGroup.Unset? ==> updated.yearGroup == Some(Finite(0))
      ensures yearGroup.Entered? ==> updated.yearGroup == Some(yearGroup.value)
    {
      // `Number("")` is 0: a year group never entered is stored as 0.
      var year := if yearGroup.Unset? then Finite(0) else yearGroup.value;
      updated := user.(keyStage := Some(keyStage), yearGroup := Some(year), subjects := Some(selectedSubjects));
    }
  }
}
