/** The quiz component (frontend/src/components/Quiz.jsx): the question table cut
    into one page per group, the page index restored from storage, the answer map
    keyed by question id, the "Next" gate and the answer list it submits. */
module Quiz {
  import opened Wrappers
  import opened JsText
  import opened Questions
  import opened StudentModel

  /** The sizes of the groups, one page each. */
  const Groups: seq<nat> := [10, 7, 8, 3, 2, 5]

  /** The names of the groups, which are the categories of their questions. */
  const GroupNames: seq<string> := ["MBTI", "Technical", "Wisdom", "Cultural", "Integrative", "IQ"]

  /** The sum of the sizes. */
  function Total(sizes: seq<nat>): nat {
    if sizes == [] then 0 else sizes[0] + Total(sizes[1..])
  }

  lemma {:induction false} TotalAppend(a: seq<nat>, b: seq<nat>)
    ensures Total(a + b) == Total(a) + Total(b)
  {
    if a != [] {
      assert (a + b)[0] == a[0] && (a + b)[1..] == a[1..] + b;
      TotalAppend(a[1..], b);
    } else {
      assert a + b == b;
    }
  }

  /** `s.slice(from, to)` for non-negative bounds: both are clamped to the length. */
  function Slice<T>(s: seq<T>, from: nat, to: nat): (r: seq<T>)
    ensures from <= to <= |s| ==> r == s[from..to]
    ensures |s| <= from || to <= from ==> r == []
  {
    var lo := if from < |s| then from else |s|;
    var hi := if to < |s| then to else |s|;
    if hi <= lo then [] else s[lo..hi]
  }

  /** The pages the loop builds: consecutive slices of the given sizes from `start`. */
  function PagesFrom<T>(qs: seq<T>, sizes: seq<nat>, start: nat): (pages: seq<seq<T>>)
    ensures |pages| == |sizes|
  {
    if sizes == [] then []
    else [Slice(qs, start, start + sizes[0])] + PagesFrom(qs, sizes[1..], start + sizes[0])
  }

  /** All pages, one after the other. */
  function Flatten<T>(pages: seq<seq<T>>): seq<T> {
    if pages == [] then [] else pages[0] + Flatten(pages[1..])
  }

  lemma {:induction false} FlattenAppend<T>(a: seq<seq<T>>, b: seq<seq<T>>)
    ensures Flatten(a + b) == Flatten(a) + Flatten(b)
  {
    if a != [] {
      assert (a + b)[0] == a[0] && (a + b)[1..] == a[1..] + b;
      FlattenAppend(a[1..], b);
    } else {
      assert a + b == b;
    }
  }

  /** The loop that pushes `questions.slice(idx, idx + g.size)` for each group. */
  method BuildPages<T>(qs: seq<T>, sizes: seq<nat>) returns (pages: seq<seq<T>>)
    ensures pages == PagesFrom(qs, sizes, 0)
  {
    pages := [];
    var idx: nat := 0;
    for i := 0 to |sizes|
      invariant pages + PagesFrom(qs, sizes[i..], idx) == PagesFrom(qs, sizes, 0)
    {
      assert sizes[i..][1..] == sizes[i + 1..];
      pages := pages + [Slice(qs, idx, idx + sizes[i])];
      idx := idx + sizes[i];
    }
  }

  /** When the sizes add up to what is left of the list, the pages put back
      together are that rest of the list: no question is lost or repeated. */
  lemma {:induction false} FlattenPages<T>(qs: seq<T>, sizes: seq<nat>, start: nat)
    requires start + Total(sizes) <= |qs|
    ensures Flatten(PagesFrom(qs, sizes, start)) == qs[start..start + Total(sizes)]
  {
    if sizes != [] {
      var mid := start + sizes[0];
      FlattenPages(qs, sizes[1..], mid);
      assert qs[start..start + Total(sizes)] == qs[start..mid] + qs[mid..mid + Total(sizes[1..])];
    }
  }

  /** Page k holds the questions from the sum of the earlier sizes on, as many as
      its own size. */
  lemma {:induction false} PageAt<T>(qs: seq<T>, sizes: seq<nat>, start: nat, k: nat)
    requires start + Total(sizes) <= |qs| && k < |sizes|
    ensures start + Total(sizes[..k]) + sizes[k] <= |qs|
    ensures PagesFrom(qs, sizes, start)[k] == qs[start + Total(sizes[..k])..start + Total(sizes[..k]) + sizes[k]]
  {
    if k > 0 {
      PageAt(qs, sizes[1..], start + sizes[0], k - 1);
      assert sizes[..k][1..] == sizes[1..][..k - 1];
    }
  }

  /** The first k pages are the pages of the first k sizes. */
  lemma {:induction false} PagesPrefix<T>(qs: seq<T>, sizes: seq<nat>, start: nat, k: nat)
    requires k <= |sizes|
    ensures PagesFrom(qs, sizes, start)[..k] == PagesFrom(qs, sizes[..k], start)
  {
    if k > 0 {
      PagesPrefix(qs, sizes[1..], start + sizes[0], k - 1);
      assert sizes[..k][1..] == sizes[1..][..k - 1];
    }
  }

  /** `startIndex`: the loop adding up the lengths of the pages before `pageIndex`. */
  method StartIndex<T>(pages: seq<seq<T>>, pageIndex: nat) returns (s: nat)
    requires pageIndex <= |pages|
    ensures s == |Flatten(pages[..pageIndex])|
  {
    s := 0;
    for i := 0 to pageIndex
      invariant s == |Flatten(pages[..i])|
    {
      assert pages[..i + 1] == pages[..i] + [pages[i]];
      FlattenAppend(pages[..i], [pages[i]]);
      s := s + |pages[i]|;
    }
  }

  /** On the quiz's pages, `startIndex` of page k is the sum of the earlier group
      sizes, and the j-th question shown there is question `startIndex + j`. */
  lemma StartIndexOfPages<T>(qs: seq<T>, sizes: seq<nat>, k: nat)
    requires Total(sizes) <= |qs| && k < |sizes|
    ensures |Flatten(PagesFrom(qs, sizes, 0)[..k])| == Total(sizes[..k])
    ensures |PagesFrom(qs, sizes, 0)[k]| == sizes[k] && Total(sizes[..k]) + sizes[k] <= |qs|
    ensures forall j :: 0 <= j < sizes[k] ==>
      PagesFrom(qs, sizes, 0)[k][j] == qs[Total(sizes[..k]) + j]
  {
    PagesPrefix(qs, sizes, 0, k);
    assert sizes == sizes[..k] + sizes[k..];
    TotalAppend(sizes[..k], sizes[k..]);
    FlattenPages(qs, sizes[..k], 0);
    PageAt(qs, sizes, 0, k);
  }

  /** The pages of the quiz. */
  const QuizPages: seq<seq<Question>> := PagesFrom(Table, Groups, 0)

  lemma TotalPrefix(sizes: seq<nat>, m: nat)
    requires m < |sizes|
    ensures Total(sizes[..m + 1]) == Total(sizes[..m]) + sizes[m]
  {
    assert sizes[..m + 1] == sizes[..m] + [sizes[m]];
    TotalAppend(sizes[..m], [sizes[m]]);
  }

  /** Group k starts where the table's block of category `GroupNames[k]` starts. */
  lemma GroupBlock(k: nat)
    requires k < 6
    ensures Total(Groups[..k]) + Groups[k] <= 35
    ensures forall i :: Total(Groups[..k]) <= i < Total(Groups[..k]) + Groups[k] ==>
      CategoryAt(i) == GroupNames[k]
  {
    assert Groups[..0] == [];
    var m := 0;
    while m < k
      invariant m <= k && Total(Groups[..m]) == [0, 10, 17, 25, 28, 30][m]
    {
      TotalPrefix(Groups, m);
      m := m + 1;
    }
  }

  /** The six pages are exactly the category blocks of the table, in order:
      page k holds the questions of group k, and together they are the table. */
  lemma PagesAreCategoryBlocks()
    ensures |QuizPages| == |GroupNames| == 6 && Flatten(QuizPages) == Table
    ensures forall k :: 0 <= k < 6 ==> |QuizPages[k]| == Groups[k]
    ensures forall k, j :: 0 <= k < 6 && 0 <= j < |QuizPages[k]| ==> QuizPages[k][j].category == GroupNames[k]
  {
    TableLength();
    assert Total(Groups) == 35;
    FlattenPages(Table, Groups, 0);
    assert Table[0..35] == Table;
    forall k | 0 <= k < 6
      ensures |QuizPages[k]| == Groups[k]
      ensures forall j :: 0 <= j < |QuizPages[k]| ==> QuizPages[k][j].category == GroupNames[k]
    {
      PageAt(Table, Groups, 0, k);
      GroupBlock(k);
    }
  }

  /** `parseInt(localStorage.getItem(page))` clamped to a page: a missing entry
      (which reads as "null") or anything that is not a finite number gives 0. */
  function RestorePage(stored: Option<string>, totalPages: nat): (p: nat)
    requires totalPages >= 1
    ensures p < totalPages
    ensures stored.None? ==> p == 0
    ensures stored.Some? ==>
      match ParseInt(stored.value)
      case Finite(v) => (0 <= v < totalPages ==> p == v) && (v < 0 ==> p == 0)
        && (v >= totalPages ==> p == totalPages - 1)
      case _ => p == 0
  {
    var n := if stored.None? then NaN else ParseInt(stored.value);
    match n
    case Finite(v) => if v < 0 then 0 else if v > totalPages - 1 then totalPages - 1 else v
    case _ => 0
  }

  /** The page index the quiz saves, `String(pageIndex)`, is restored as itself. */
  lemma RestoreSavedPage(k: nat, totalPages: nat)
    requires k < totalPages && k < ExponentFrom
    ensures RestorePage(Some(NatToString(k)), totalPages) == k
  {
    assert NatToString(k) + [] == NatToString(k);
    ParseIntOfNumeral(k, []);
  }

  /** `answers[id]` is a non-empty string. */
  predicate Answered(answers: map<string, string>, id: string) {
    id in answers && answers[id] != ""
  }

  /** `answeredCount`: the keys whose value is truthy. */
  function AnsweredCount(answers: map<string, string>): nat {
    |set k | k in answers && answers[k] != ""|
  }

  /** Choosing a non-empty option raises the count by one exactly when the question
      was not answered before; clearing nothing else, it never lowers it. */
  lemma AnsweredCountSelect(answers: map<string, string>, qid: string, opt: string)
    requires opt != ""
    ensures AnsweredCount(answers[qid := opt]) ==
      AnsweredCount(answers) + (if Answered(answers, qid) then 0 else 1)
  {
    var before := set k | k in answers && answers[k] != "";
    var updated := answers[qid := opt];
    var after := set k | k in updated && updated[k] != "";
    assert after == before + {qid};
  }

  /** `pageComplete`: every question of the page has a non-empty string answer. */
  predicate PageComplete(answers: map<string, string>, page: seq<Question>) {
    forall i :: 0 <= i < |page| ==> Answered(answers, page[i].id)
  }

  /** `remainingOnPage`: the questions of the page without a non-empty answer. */
  function RemainingOnPage(answers: map<string, string>, page: seq<Question>): (n: nat)
    ensures n <= |page|
  {
    if page == [] then 0
    else (if Answered(answers, page[0].id) then 0 else 1) + RemainingOnPage(answers, page[1..])
  }

  /** Nothing remains on a page exactly when it is complete. */
  lemma {:induction false} RemainingOnPageZero(answers: map<string, string>, page: seq<Question>)
    ensures RemainingOnPage(answers, page) == 0 <==> PageComplete(answers, page)
  {
    if page != [] {
      RemainingOnPageZero(answers, page[1..]);
      if PageComplete(answers, page[1..]) && Answered(answers, page[0].id) {
        forall i | 0 <= i < |page|
          ensures Answered(answers, page[i].id)
        {
          if i > 0 {
            assert page[i] == page[1..][i - 1];
          }
        }
      }
    }
  }

  lemma {:induction false} PageCompleteFlatten(answers: map<string, string>, pages: seq<seq<Question>>)
    requires forall k :: 0 <= k < |pages| ==> PageComplete(answers, pages[k])
    ensures PageComplete(answers, Flatten(pages))
  {
    if pages != [] {
      PageCompleteFlatten(answers, pages[1..]);
    }
  }

  /** `submitAll`: one answer per question, in table order, numbered from 1, with
      `null` for a question without a non-empty answer. */
  function SubmitAll(qs: seq<Question>, answers: map<string, string>): (r: seq<Answer>)
    ensures |r| == |qs|
    ensures forall i :: 0 <= i < |qs| ==>
      && r[i].questionId == Some(qs[i].id) && r[i].category == Some(qs[i].category)
      && r[i].questionIndex == Some(i + 1)
      && (r[i].answer.Some? <==> Answered(answers, qs[i].id))
      && (r[i].answer.Some? ==> r[i].answer.value == answers[qs[i].id])
  {
    seq(|qs|, i requires 0 <= i < |qs| =>
      Answer(Some(qs[i].id), Some(qs[i].category), Some(i + 1),
             if Answered(answers, qs[i].id) then Some(answers[qs[i].id]) else None))
  }

  /** Once every page is complete, the submitted list has an answer for every question. */
  lemma CompleteQuizAnswersAll(answers: map<string, string>)
    requires forall k :: 0 <= k < |QuizPages| ==> PageComplete(answers, QuizPages[k])
    ensures forall i :: 0 <= i < |Table| ==> SubmitAll(Table, answers)[i].answer.Some?
  {
    PagesAreCategoryBlocks();
    PageCompleteFlatten(answers, QuizPages);
  }

  /** The quiz's state: the answer map and page index, and the two storage
      entries the persisting effect writes after every change. The answers
      entry is kept as the map it encodes. */
  class Session {
    const pages: seq<seq<Question>>
    var pageIndex: nat
    var answers: map<string, string>
    var savedAnswers: Option<map<string, string>>
    var savedPage: Option<string>

    ghost predicate Valid()
      reads this
    {
      pages == QuizPages && |pages| == 6 && pageIndex < |pages|
    }

    /** Mounting: pages built, page index and answers restored, then persisted. */
    constructor (storedAnswers: Option<map<string, string>>, storedPage: Option<string>)
      ensures Valid()
      ensures pageIndex == RestorePage(storedPage, 6)
      ensures answers == storedAnswers.GetOr(map[])
      ensures savedAnswers == Some(answers) && savedPage == Some(NatToString(pageIndex))
    {
      var built := BuildPages(Table, Groups);
      pages := built;
      pageIndex := RestorePage(storedPage, |built|);
      answers := storedAnswers.GetOr(map[]);
      new;
      Persist();
    }

    /** The effect that saves the answers and the page after each change. */
    method Persist()
      modifies this`savedAnswers, this`savedPage
      ensures savedAnswers == Some(answers) && savedPage == Some(NatToString(pageIndex))
    {
      savedAnswers := Some(answers);
      savedPage := Some(NatToString(pageIndex));
    }

    /** `handleSelect(qid, opt)`: answers[qid] becomes opt, every other key is kept. */
    method Select(qid: string, opt: string)
      requires Valid()
      modifies this
      ensures Valid() && pageIndex == old(pageIndex)
      ensures answers == old(answers)[qid := opt]
      ensures forall k :: k != qid ==>
        (k in answers <==> k in old(answers)) && (k in answers ==> answers[k] == old(answers)[k])
      ensures savedAnswers == Some(answers) && savedPage == Some(NatToString(pageIndex))
    {
      answers := answers[qid := opt];
      Persist();
    }

    /** `handleNextClick`: nothing on an incomplete page, the next page when there
        is one, and otherwise the submission with the saved entries removed. */
    method NextClick() returns (submission: Option<seq<Answer>>)
      requires Valid()
      modifies this
      ensures Valid() && answers == old(answers)
      ensures !PageComplete(old(answers), pages[old(pageIndex)]) ==>
        submission.None? && pageIndex == old(pageIndex)
        && savedAnswers == old(savedAnswers) && savedPage == old(savedPage)
      ensures PageComplete(old(answers), pages[old(pageIndex)]) && old(pageIndex) < |pages| - 1 ==>
        submission.None? && pageIndex == old(pageIndex) + 1
        && savedAnswers == Some(answers) && savedPage == Some(NatToString(pageIndex))
      ensures PageComplete(old(answers), pages[old(pageIndex)]) && old(pageIndex) == |pages| - 1 ==>
        submission == Some(SubmitAll(Table, answers)) && pageIndex == old(pageIndex)
        && savedAnswers.None? && savedPage.None?
    {
      if !PageComplete(answers, pages[pageIndex]) {
        return None;
      }
      if pageIndex < |pages| - 1 {
        pageIndex := pageIndex + 1;
        Persist();
        submission := None;
      } else {
        submission := Some(SubmitAll(Table, answers));
        savedAnswers, savedPage := None, None;
      }
    }

    /** The "Prev" button, shown only after the first page. */
    method Prev()
      requires Valid() && pageIndex > 0
      modifies this
      ensures Valid() && answers == old(answers) && pageIndex == old(pageIndex) - 1
      ensures savedAnswers == Some(answers) && savedPage == Some(NatToString(pageIndex))
    {
      pageIndex := pageIndex - 1;
      Persist();
    }
  }
}
