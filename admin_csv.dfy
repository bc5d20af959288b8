/** The CSV export of the admin page (`makeCSV` in frontend/src/pages/Admin.jsx):
    a header line, then one line per student, each cell written as a JSON string
    literal; each student's answers are first placed into one slot per question. */
module AdminCsv {
  import opened Wrappers
  import opened JsText
  import opened JsonString
  import opened Questions
  import opened StudentModel
  import Quiz

  /** A student record as the admin page receives it from `GET /api/students/:id`,
      parsed from JSON: any field may be missing. */
  datatype Detail = Detail(
    id: Option<string>,
    name: Option<string>,
    email: Option<string>,
    contact: Option<string>,
    hometown: Option<string>,
    gender: Option<string>,
    campus: Option<string>,
    branch: Option<string>,
    createdAt: Option<string>,
    answers: Option<seq<Answer>>)

  /** `x || ""` for an optional string: a missing or empty value becomes "". */
  function OrEmpty(x: Option<string>): (r: string)
    ensures r == "" <==> !Truthy(x)
    ensures Truthy(x) ==> r == x.value
  {
    if Truthy(x) then x.value else ""
  }

  /** The slot an answer is placed in: `questionIndex - 1` when the index is truthy,
      otherwise the first question with the answer's id; -1 when that is missing
      or outside the table, and the answer is dropped. */
  function SlotOf(qs: seq<Question>, a: Answer): (t: int)
    ensures -1 <= t < |qs|
    ensures a.questionIndex.Some? && a.questionIndex.value != 0 ==>
      t == if 1 <= a.questionIndex.value <= |qs| then a.questionIndex.value - 1 else -1
    ensures !(a.questionIndex.Some? && a.questionIndex.value != 0) ==>
      (t >= 0 <==> a.questionId.Some? && exists i :: 0 <= i < |qs| && qs[i].id == a.questionId.value)
    ensures !(a.questionIndex.Some? && a.questionIndex.value != 0) && t >= 0 ==>
      && qs[t].id == a.questionId.value
      && forall i :: 0 <= i < t ==> qs[i].id != a.questionId.value
  {
    var idx :=
      if a.questionIndex.Some? && a.questionIndex.value != 0 then a.questionIndex.value - 1
      else if a.questionId.Some? then FindIndex(qs, a.questionId.value)
      else -1;
    if 0 <= idx < |qs| then idx else -1
  }

  /** What an answer puts in its slot: `a.answer || ""`. */
  function AnswerText(a: Answer): string {
    OrEmpty(a.answer)
  }

  /** `qmap` once the given answers are placed, one after the other. */
  function Placement(qs: seq<Question>, answers: seq<Answer>): (qmap: map<nat, string>)
    ensures forall i :: i in qmap ==> i < |qs|
  {
    if answers == [] then map[]
    else
      var qmap := Placement(qs, answers[..|answers| - 1]);
      var a := answers[|answers| - 1];
      var t := SlotOf(qs, a);
      if t >= 0 then qmap[t := AnswerText(a)] else qmap
  }

  /** The `forEach` that fills `qmap`. */
  method PlaceAnswers(qs: seq<Question>, answers: seq<Answer>) returns (qmap: map<nat, string>)
    ensures qmap == Placement(qs, answers)
  {
    qmap := map[];
    for k := 0 to |answers|
      invariant qmap == Placement(qs, answers[..k])
    {
      assert answers[..k + 1][..k] == answers[..k];
      var a := answers[k];
      var t := SlotOf(qs, a);
      if t >= 0 {
        qmap := qmap[t := AnswerText(a)];
      }
    }
    assert answers[..|answers|] == answers;
  }

  /** A slot holds what the last answer placed in it wrote. */
  lemma {:induction false} PlacementLastWins(qs: seq<Question>, answers: seq<Answer>, j: nat)
    requires j < |answers| && SlotOf(qs, answers[j]) >= 0
    requires forall k :: j < k < |answers| ==> SlotOf(qs, answers[k]) != SlotOf(qs, answers[j])
    ensures SlotOf(qs, answers[j]) in Placement(qs, answers)
    ensures Placement(qs, answers)[SlotOf(qs, answers[j])] == AnswerText(answers[j])
  {
    var init := answers[..|answers| - 1];
    if j < |answers| - 1 {
      assert answers[j] == init[j];
      PlacementLastWins(qs, init, j);
    }
  }

  /** A slot no answer is placed in stays empty. */
  lemma {:induction false} PlacementUnplaced(qs: seq<Question>, answers: seq<Answer>, i: nat)
    requires forall k :: 0 <= k < |answers| ==> SlotOf(qs, answers[k]) != i
    ensures i !in Placement(qs, answers)
  {
    if answers != [] {
      var init := answers[..|answers| - 1];
      assert forall k :: 0 <= k < |init| ==> init[k] == answers[k];
      PlacementUnplaced(qs, init, i);
    }
  }

  /** The column names: nine record fields, then "<n> - <question text>". */
  const FieldNames: seq<string> :=
    ["id", "name", "email", "contact", "hometown", "gender", "campus", "branch", "createdAt"]

  function HeaderCells(qs: seq<Question>): (cells: seq<string>)
    ensures |cells| == 9 + |qs|
  {
    FieldNames + seq(|qs|, i requires 0 <= i < |qs| => NatToString(i + 1) + " - " + qs[i].text)
  }

  /** `qmap[i] || ""` for every question. */
  function SlotCells(qs: seq<Question>, qmap: map<nat, string>): (cells: seq<string>)
    ensures |cells| == |qs|
  {
    seq(|qs|, i requires 0 <= i < |qs| => if i in qmap then qmap[i] else "")
  }

  /** The nine record cells of a row, each `JSON.stringify(s.<field> || "")`. */
  function FieldCells(s: Detail): (cells: seq<string>)
    ensures |cells| == 9
  {
    [OrEmpty(s.id), OrEmpty(s.name), OrEmpty(s.email), OrEmpty(s.contact), OrEmpty(s.hometown),
     OrEmpty(s.gender), OrEmpty(s.campus), OrEmpty(s.branch), OrEmpty(s.createdAt)]
  }

  /** The cells of one student's row. */
  function RowCells(qs: seq<Question>, s: Detail): (cells: seq<string>)
    ensures |cells| == 9 + |qs|
  {
    FieldCells(s) + SlotCells(qs, Placement(qs, s.answers.GetOr([])))
  }

  function RowLines(qs: seq<Question>, students: seq<Detail>): (lines: seq<string>)
    ensures |lines| == |students|
  {
    seq(|students|, k requires 0 <= k < |students| => Line(RowCells(qs, students[k])))
  }

  /** The text `makeCSV` returns. */
  function Csv(qs: seq<Question>, students: seq<Detail>): string {
    Join('\n', [Line(HeaderCells(qs))] + RowLines(qs, students))
  }

  /** `makeCSV`: the header line, then the rows the `map` builds, joined by newlines. */
  method MakeCsv(qs: seq<Question>, students: seq<Detail>) returns (csv: string)
    ensures csv == Csv(qs, students)
  {
    var headerLine := Line(HeaderCells(qs));
    var rows: seq<string> := [];
    for k := 0 to |students|
      invariant rows == RowLines(qs, students[..k])
    {
      var s := students[k];
      var qmap := PlaceAnswers(qs, s.answers.GetOr([]));
      rows := rows + [Line(FieldCells(s) + SlotCells(qs, qmap))];
      assert students[..k + 1] == students[..k] + [s];
    }
    assert students[..|students|] == students;
    csv := Join('\n', [headerLine] + rows);
  }

  /** The export splits at its newlines into the header line and one line per
      student, in order, and every line reads back as exactly its 9 + |qs| cells. */
  lemma CsvShape(qs: seq<Question>, students: seq<Detail>)
    ensures var lines := Split('\n', Csv(qs, students));
      && |lines| == 1 + |students|
      && ParseLine(lines[0]) == Some(HeaderCells(qs))
      && forall k :: 0 <= k < |students| ==>
           ParseLine(lines[k + 1]) == Some(RowCells(qs, students[k])) && |RowCells(qs, students[k])| == 9 + |qs|
  {
    var all := [Line(HeaderCells(qs))] + RowLines(qs, students);
    SplitJoin('\n', all);
    ParseLineOfLine(HeaderCells(qs));
    forall k | 0 <= k < |students|
      ensures ParseLine(all[k + 1]) == Some(RowCells(qs, students[k]))
    {
      ParseLineOfLine(RowCells(qs, students[k]));
    }
  }

  /** Placing the list the quiz submits puts each question's chosen option in that
      question's column, and an empty cell where there was none. */
  lemma SubmittedAnswersInTheirColumns(qs: seq<Question>, chosen: map<string, string>)
    ensures forall i :: 0 <= i < |qs| ==>
      SlotCells(qs, Placement(qs, Quiz.SubmitAll(qs, chosen)))[i] ==
        if Quiz.Answered(chosen, qs[i].id) then chosen[qs[i].id] else ""
  {
    var submitted := Quiz.SubmitAll(qs, chosen);
    forall i | 0 <= i < |qs|
      ensures SlotCells(qs, Placement(qs, submitted))[i] ==
        if Quiz.Answered(chosen, qs[i].id) then chosen[qs[i].id] else ""
    {
      assert SlotOf(qs, submitted[i]) == i;
      forall k | i < k < |submitted|
        ensures SlotOf(qs, submitted[k]) != i
      {
        assert SlotOf(qs, submitted[k]) == k;
      }
      PlacementLastWins(qs, submitted, i);
    }
  }
}
