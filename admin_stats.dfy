/** The admin page's statistics (frontend/src/pages/Admin.jsx): per question, how
    many students chose each option, how many gave another answer ("Other") and
    how many gave none (`computeQuestionStats`); and for one selected student, per
    category, how many answers there are and how many are non-empty
    (`selectedStats`). Both build plain objects, modelled as `JsObject.Obj`. */
module AdminStats {
  import opened Wrappers
  import opened JsObject
  import opened Questions
  import opened StudentModel
  import opened AdminCsv

  /** A count taken as its own measure, for summing the counts of an object. */
  function CountOf(n: nat): nat {
    n
  }

  /** The position of the first answer to the question `qid`, or -1: the
      `find` over `stu.answers || []`. */
  function FirstMatch(answers: seq<Answer>, qid: string): (j: int)
    ensures -1 <= j < |answers|
    ensures j >= 0 ==> answers[j].questionId == Some(qid)
    ensures forall k :: 0 <= k < |answers| && (j == -1 || k < j) ==> answers[k].questionId != Some(qid)
  {
    if answers == [] then -1
    else if answers[0].questionId == Some(qid) then 0
    else var j := FirstMatch(answers[1..], qid); if j == -1 then -1 else j + 1
  }

  /** What a student answered to `qid`: the first matching answer's text, or
      `None` when there is no such answer or its text is null, missing or "". */
  function Response(s: Detail, qid: string): (r: Option<string>)
    ensures r.Some? ==> r.value != ""
    ensures var answers := s.answers.GetOr([]);
      (forall j :: 0 <= j < |answers| ==> answers[j].questionId != Some(qid)) ==> r.None?
    ensures var answers := s.answers.GetOr([]);
      forall j ::
        (0 <= j < |answers| && answers[j].questionId == Some(qid)
         && (forall k :: 0 <= k < j ==> answers[k].questionId != Some(qid))) ==>
        r == if Truthy(answers[j].answer) then answers[j].answer else None
  {
    var answers := s.answers.GetOr([]);
    var j := FirstMatch(answers, qid);
    if j >= 0 && Truthy(answers[j].answer) then answers[j].answer else None
  }

  /** `q.options.forEach((opt) => (counts[opt] = 0))`. */
  function ZeroCounts(options: seq<string>): Obj<nat> {
    if options == [] then []
    else Set(ZeroCounts(options[..|options| - 1]), options[|options| - 1], 0)
  }

  /** `counts[key] = (counts[key] || 0) + 1`. */
  function Bump(counts: Obj<nat>, key: string): Obj<nat> {
    Set(counts, key, (if Has(counts, key) then Get(counts, key) else 0) + 1)
  }

  /** One response counted: under its own key when `counts` has it, otherwise
      under "Other", which starts from 0 when absent. */
  function Count(counts: Obj<nat>, val: string): Obj<nat> {
    Bump(counts, if Has(counts, val) then val else "Other")
  }

  /** Bumping a key adds one to it, creating it if need be, and changes no other key. */
  lemma BumpStep(c: Obj<nat>, b: string)
    ensures var r := Bump(c, b);
      && (forall k :: Has(r, k) <==> Has(c, k) || k == b)
      && Get(r, b) == (if Has(c, b) then Get(c, b) else 0) + 1
      && (forall k :: k != b && Has(c, k) ==> Get(r, k) == Get(c, k))
      && SumBy(r, CountOf) == SumBy(c, CountOf) + 1
      && (DistinctKeys(c) ==> DistinctKeys(r))
  {
    var n := (if Has(c, b) then Get(c, b) else 0) + 1;
    GetSetSame(c, b, n);
    forall k | k != b && Has(c, k)
      ensures Get(Set(c, b, n), k) == Get(c, k)
    {
      GetSetOther(c, b, n, k);
    }
    SumBySet(c, b, n, CountOf);
    if DistinctKeys(c) {
      SetDistinct(c, b, n);
    }
  }

  /** The counts and the number of students without a response. */
  datatype Tally = Tally(counts: Obj<nat>, unanswered: nat)

  /** The tally of one question over the given students, taken in order. */
  function TallyOf(q: Question, students: seq<Detail>): (t: Tally)
    ensures t.unanswered <= |students|
  {
    if students == [] then Tally(ZeroCounts(q.options), 0)
    else
      var t := TallyOf(q, students[..|students| - 1]);
      match Response(students[|students| - 1], q.id)
      case None => t.(unanswered := t.unanswered + 1)
      case Some(v) => t.(counts := Count(t.counts, v))
  }

  /** The number of students who answered `qid` with `v`. */
  function Picked(students: seq<Detail>, qid: string, v: string): nat {
    if students == [] then 0
    else Picked(students[..|students| - 1], qid, v) + (if Response(students[|students| - 1], qid) == Some(v) then 1 else 0)
  }

  /** The number of students whose answer to `q` is none of its options. */
  function Stray(students: seq<Detail>, q: Question): nat {
    if students == [] then 0
    else
      var r := Response(students[|students| - 1], q.id);
      Stray(students[..|students| - 1], q) + (if r.Some? && r.value !in q.options then 1 else 0)
  }

  /** The number of students without an answer to `qid`. */
  function Silent(students: seq<Detail>, qid: string): nat {
    if students == [] then 0
    else Silent(students[..|students| - 1], qid) + if Response(students[|students| - 1], qid).None? then 1 else 0
  }

  /** Every option is a key of the zero counts, there is no other key, and every
      count is 0. */
  lemma {:induction false} ZeroCountsShape(options: seq<string>)
    ensures forall k :: Has(ZeroCounts(options), k) <==> k in options
    ensures forall k :: Has(ZeroCounts(options), k) ==> Get(ZeroCounts(options), k) == 0
    ensures DistinctKeys(ZeroCounts(options)) && SumBy(ZeroCounts(options), CountOf) == 0
  {
    if options != [] {
      var init, last := options[..|options| - 1], options[|options| - 1];
      var z := ZeroCounts(init);
      ZeroCountsShape(init);
      assert options == init + [last];
      GetSetSame(z, last, 0);
      forall k | k != last && Has(z, k)
        ensures Get(Set(z, last, 0), k) == 0
      {
        GetSetOther(z, last, 0, k);
      }
      SetDistinct(z, last, 0);
      SumBySet(z, last, 0, CountOf);
    }
  }

  /** What the keys of `counts` may be while tallying a question with these options. */
  ghost predicate KeysFor(options: seq<string>, counts: Obj<nat>) {
    && (forall o :: o in options ==> Has(counts, o))
    && (forall k :: Has(counts, k) ==> k in options || k == "Other")
  }

  /** The key a response is counted under. */
  function Bucket(options: seq<string>, v: string): string {
    if v in options then v else "Other"
  }

  /** A response is counted under its bucket. */
  lemma CountBucket(options: seq<string>, c: Obj<nat>, v: string)
    requires KeysFor(options, c)
    ensures Count(c, v) == Bump(c, Bucket(options, v))
  {
  }

  /** The keys of a question's tally: its options, each once, and "Other" exactly
      when it is an option or some answer is not an option. */
  lemma {:induction false} TallyKeys(q: Question, students: seq<Detail>)
    ensures var t := TallyOf(q, students);
      && KeysFor(q.options, t.counts)
      && DistinctKeys(t.counts)
      && (Has(t.counts, "Other") <==> "Other" in q.options || Stray(students, q) > 0)
  {
    if students == [] {
      ZeroCountsShape(q.options);
    } else {
      var init := students[..|students| - 1];
      TallyKeys(q, init);
      match Response(students[|students| - 1], q.id)
      case None =>
      case Some(v) =>
        CountBucket(q.options, TallyOf(q, init).counts, v);
        BumpStep(TallyOf(q, init).counts, Bucket(q.options, v));
    }
  }

  /** Each option other than "Other" counts the students who chose it. */
  lemma {:induction false} TallyOptionCounts(q: Question, students: seq<Detail>)
    ensures var t := TallyOf(q, students);
      forall o :: o in q.options && o != "Other" ==>
        Has(t.counts, o) && Get(t.counts, o) == Picked(students, q.id, o)
  {
    TallyKeys(q, students);
    if students == [] {
      ZeroCountsShape(q.options);
    } else {
      var init := students[..|students| - 1];
      TallyKeys(q, init);
      TallyOptionCounts(q, init);
      match Response(students[|students| - 1], q.id)
      case None =>
      case Some(v) =>
        CountBucket(q.options, TallyOf(q, init).counts, v);
        BumpStep(TallyOf(q, init).counts, Bucket(q.options, v));
    }
  }

  /** "Other", when present, counts the answers that are not options, plus the
      students who chose it when it is an option. */
  lemma {:induction false} TallyOtherCount(q: Question, students: seq<Detail>)
    ensures var t := TallyOf(q, students);
      Has(t.counts, "Other") ==>
        Get(t.counts, "Other") ==
          Stray(students, q) + if "Other" in q.options then Picked(students, q.id, "Other") else 0
  {
    if students == [] {
      ZeroCountsShape(q.options);
    } else {
      var init := students[..|students| - 1];
      TallyKeys(q, init);
      TallyOtherCount(q, init);
      match Response(students[|students| - 1], q.id)
      case None =>
      case Some(v) =>
        CountBucket(q.options, TallyOf(q, init).counts, v);
        BumpStep(TallyOf(q, init).counts, Bucket(q.options, v));
    }
  }

  /** `unanswered` counts the students without an answer. */
  lemma {:induction false} TallyUnanswered(q: Question, students: seq<Detail>)
    ensures TallyOf(q, students).unanswered == Silent(students, q.id)
  {
    if students != [] {
      TallyUnanswered(q, students[..|students| - 1]);
    }
  }

  /** Every student lands either in exactly one count or in `unanswered`. */
  lemma {:induction false} TallyConserves(q: Question, students: seq<Detail>)
    ensures SumBy(TallyOf(q, students).counts, CountOf) + TallyOf(q, students).unanswered == |students|
  {
    if students == [] {
      ZeroCountsShape(q.options);
    } else {
      var init := students[..|students| - 1];
      TallyConserves(q, init);
      TallyKeys(q, init);
      match Response(students[|students| - 1], q.id)
      case None =>
      case Some(v) =>
        CountBucket(q.options, TallyOf(q, init).counts, v);
        BumpStep(TallyOf(q, init).counts, Bucket(q.options, v));
    }
  }

  /** The counting for one question: zero counts for its options, then one step
      per student. */
  method TallyQuestion(q: Question, students: seq<Detail>) returns (counts: Obj<nat>, unanswered: nat)
    ensures Tally(counts, unanswered) == TallyOf(q, students)
    ensures SumBy(counts, CountOf) + unanswered == |students|
  {
    counts := [];
    for i := 0 to |q.options|
      invariant counts == ZeroCounts(q.options[..i])
    {
      assert q.options[..i + 1][..i] == q.options[..i];
      counts := Set(counts, q.options[i], 0);
    }
    assert q.options[..|q.options|] == q.options;
    unanswered := 0;
    for k := 0 to |students|
      invariant Tally(counts, unanswered) == TallyOf(q, students[..k])
    {
      assert students[..k + 1][..k] == students[..k];
      var answers := students[k].answers.GetOr([]);
      var j := FirstMatch(answers, q.id);
      if j < 0 || !Truthy(answers[j].answer) {
        unanswered := unanswered + 1;
      } else {
        var val := answers[j].answer.value;
        if Has(counts, val) {
          counts := Set(counts, val, Get(counts, val) + 1);
        } else {
          counts := Set(counts, "Other", (if Has(counts, "Other") then Get(counts, "Other") else 0) + 1);
        }
      }
    }
    assert students[..|students|] == students;
    TallyConserves(q, students);
  }

  /** One entry of the statistics: the question and its tally. */
  datatype QuestionStat = QuestionStat(
    id: string, category: string, text: string, options: seq<string>,
    counts: Obj<nat>, unanswered: nat)

  function StatOf(q: Question, students: seq<Detail>): QuestionStat {
    var t := TallyOf(q, students);
    QuestionStat(q.id, q.category, q.text, q.options, t.counts, t.unanswered)
  }

  /** `computeQuestionStats`: one entry per question, in the questions' order,
      each accounting for every student once. */
  method ComputeQuestionStats(qs: seq<Question>, students: seq<Detail>) returns (stats: seq<QuestionStat>)
    ensures |stats| == |qs|
    ensures forall i :: 0 <= i < |qs| ==> stats[i] == StatOf(qs[i], students)
    ensures forall i :: 0 <= i < |qs| ==>
      stats[i].id == qs[i].id && SumBy(stats[i].counts, CountOf) + stats[i].unanswered == |students|
  {
    stats := [];
    for i := 0 to |qs|
      invariant |stats| == i
      invariant forall k :: 0 <= k < i ==> stats[k] == StatOf(qs[k], students)
    {
      var q := qs[i];
      var counts, unanswered := TallyQuestion(q, students);
      stats := stats + [QuestionStat(q.id, q.category, q.text, q.options, counts, unanswered)];
    }
    forall i | 0 <= i < |qs|
      ensures SumBy(stats[i].counts, CountOf) + stats[i].unanswered == |students|
    {
      TallyConserves(qs[i], students);
    }
  }

  /** The per-category figures of one student. */
  datatype CatStat = CatStat(total: nat, answered: nat)

  function TotalOf(c: CatStat): nat {
    c.total
  }

  function AnsweredOf(c: CatStat): nat {
    c.answered
  }

  /** `a.category || "Other"`. */
  function CategoryOf(a: Answer): string {
    if Truthy(a.category) then a.category.value else "Other"
  }

  /** One answer counted into `byCat`. */
  function Tick(byCat: Obj<CatStat>, a: Answer): Obj<CatStat> {
    var cat := CategoryOf(a);
    var prev := if Has(byCat, cat) then Get(byCat, cat) else CatStat(0, 0);
    Set(byCat, cat, CatStat(prev.total + 1, prev.answered + if Truthy(a.answer) then 1 else 0))
  }

  /** `byCat` after the given answers, in order. */
  function ByCategory(answers: seq<Answer>): Obj<CatStat> {
    if answers == [] then []
    else Tick(ByCategory(answers[..|answers| - 1]), answers[|answers| - 1])
  }

  /** The number of answers in category `cat`. */
  function InCategory(answers: seq<Answer>, cat: string): nat {
    if answers == [] then 0
    else InCategory(answers[..|answers| - 1], cat) + if CategoryOf(answers[|answers| - 1]) == cat then 1 else 0
  }

  /** The number of non-empty answers in category `cat`. */
  function AnsweredIn(answers: seq<Answer>, cat: string): nat {
    if answers == [] then 0
    else
      var a := answers[|answers| - 1];
      AnsweredIn(answers[..|answers| - 1], cat) + if CategoryOf(a) == cat && Truthy(a.answer) then 1 else 0
  }

  /** The number of non-empty answers. */
  function NonEmpty(answers: seq<Answer>): nat {
    if answers == [] then 0
    else NonEmpty(answers[..|answers| - 1]) + if Truthy(answers[|answers| - 1].answer) then 1 else 0
  }

  /** `selectedStats`: nothing without a selected student or without an answer
      list; otherwise the answers counted by category. */
  method SelectedStats(selected: Option<Detail>) returns (r: Option<Obj<CatStat>>)
    ensures r.None? <==> selected.None? || selected.value.answers.None?
    ensures r.Some? ==> r.value == ByCategory(selected.value.answers.value)
  {
    if selected.None? || selected.value.answers.None? {
      return None;
    }
    var answers := selected.value.answers.value;
    var byCat: Obj<CatStat> := [];
    for k := 0 to |answers|
      invariant byCat == ByCategory(answers[..k])
    {
      assert answers[..k + 1][..k] == answers[..k];
      var a := answers[k];
      var cat := if Truthy(a.category) then a.category.value else "Other";
      var prev := if Has(byCat, cat) then Get(byCat, cat) else CatStat(0, 0);
      byCat := Set(byCat, cat, CatStat(prev.total + 1, prev.answered + if Truthy(a.answer) then 1 else 0));
    }
    assert answers[..|answers|] == answers;
    r := Some(byCat);
  }

  /** A category never has more non-empty answers than answers. */
  lemma {:induction false} AnsweredWithin(answers: seq<Answer>, cat: string)
    ensures AnsweredIn(answers, cat) <= InCategory(answers, cat)
  {
    if answers != [] {
      AnsweredWithin(answers[..|answers| - 1], cat);
    }
  }

  /** Counting one answer changes only its category's figures. */
  lemma TickStep(byCat: Obj<CatStat>, a: Answer)
    ensures var r, cat := Tick(byCat, a), CategoryOf(a);
      var prev := if Has(byCat, cat) then Get(byCat, cat) else CatStat(0, 0);
      && (forall k :: Has(r, k) <==> Has(byCat, k) || k == cat)
      && Get(r, cat) == CatStat(prev.total + 1, prev.answered + if Truthy(a.answer) then 1 else 0)
      && (forall k :: k != cat && Has(byCat, k) ==> Get(r, k) == Get(byCat, k))
      && (DistinctKeys(byCat) ==> DistinctKeys(r))
  {
    var cat := CategoryOf(a);
    var prev := if Has(byCat, cat) then Get(byCat, cat) else CatStat(0, 0);
    var v := CatStat(prev.total + 1, prev.answered + if Truthy(a.answer) then 1 else 0);
    GetSetSame(byCat, cat, v);
    forall k | k != cat && Has(byCat, k)
      ensures Get(Set(byCat, cat, v), k) == Get(byCat, k)
    {
      GetSetOther(byCat, cat, v, k);
    }
    if DistinctKeys(byCat) {
      SetDistinct(byCat, cat, v);
    }
  }

  /** Counting one answer adds one to the totals, and one to the answered figures
      when the answer is non-empty. */
  lemma TickSums(byCat: Obj<CatStat>, a: Answer)
    ensures SumBy(Tick(byCat, a), TotalOf) == SumBy(byCat, TotalOf) + 1
    ensures SumBy(Tick(byCat, a), AnsweredOf) == SumBy(byCat, AnsweredOf) + if Truthy(a.answer) then 1 else 0
  {
    var cat := CategoryOf(a);
    var prev := if Has(byCat, cat) then Get(byCat, cat) else CatStat(0, 0);
    var v := CatStat(prev.total + 1, prev.answered + if Truthy(a.answer) then 1 else 0);
    SumBySet(byCat, cat, v, TotalOf);
    SumBySet(byCat, cat, v, AnsweredOf);
  }

  /** The categories are exactly those of the answers, each once, and each holds
      its number of answers and of non-empty answers. */
  lemma {:induction false} ByCategoryMeaning(answers: seq<Answer>)
    ensures var b := ByCategory(answers);
      && DistinctKeys(b)
      && (forall k :: Has(b, k) <==> InCategory(answers, k) > 0)
      && (forall k :: Has(b, k) ==> Get(b, k) == CatStat(InCategory(answers, k), AnsweredIn(answers, k)))
  {
    if answers != [] {
      var init, a := answers[..|answers| - 1], answers[|answers| - 1];
      ByCategoryMeaning(init);
      AnsweredWithin(init, CategoryOf(a));
      TickStep(ByCategory(init), a);
    }
  }

  /** The totals add up to the number of answers and the answered figures to the
      number of non-empty answers. */
  lemma {:induction false} ByCategoryTotals(answers: seq<Answer>)
    ensures SumBy(ByCategory(answers), TotalOf) == |answers|
    ensures SumBy(ByCategory(answers), AnsweredOf) == NonEmpty(answers)
  {
    if answers != [] {
      var init := answers[..|answers| - 1];
      ByCategoryTotals(init);
      TickSums(ByCategory(init), answers[|answers| - 1]);
    }
  }

  /** No category has more answered than total. */
  lemma AnsweredAtMostTotal(answers: seq<Answer>)
    ensures forall k :: Has(ByCategory(answers), k) ==>
      Get(ByCategory(answers), k).answered <= Get(ByCategory(answers), k).total
  {
    ByCategoryMeaning(answers);
    forall k | Has(ByCategory(answers), k)
      ensures Get(ByCategory(answers), k).answered <= Get(ByCategory(answers), k).total
    {
      AnsweredWithin(answers, k);
    }
  }
}
