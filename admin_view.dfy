/** The admin page's list handling (frontend/src/pages/Admin.jsx): the campus
    choices, the campus filter, the ordering of a loaded student's answers, the
    per-campus export with its file name, and the avatar colour of a name. */
module AdminView {
  import opened Wrappers
  import opened Questions
  import opened StudentModel
  import opened AdminCsv

  /** `Array.from(new Set(students.map((x) => x.campus).filter(Boolean)))`: the
      non-empty campuses, each once, in the order they first appear. */
  function Campuses(students: seq<Summary>): (cs: seq<string>)
    ensures |cs| <= |students|
    ensures forall i :: 0 <= i < |cs| ==> cs[i] != ""
  {
    if students == [] then []
    else
      var cs := Campuses(students[..|students| - 1]);
      var c := students[|students| - 1].campus;
      if Truthy(c) && c.value !in cs then cs + [c.value] else cs
  }

  /** Some student has campus `c`. */
  predicate HasCampus(students: seq<Summary>, c: string) {
    exists i :: 0 <= i < |students| && students[i].campus == Some(c)
  }

  /** The choices are exactly the non-empty campuses of the students, with no
      repetition. */
  lemma {:induction false} CampusesMeaning(students: seq<Summary>)
    ensures forall i, j :: 0 <= i < j < |Campuses(students)| ==> Campuses(students)[i] != Campuses(students)[j]
    ensures forall c :: c in Campuses(students) <==> c != "" && HasCampus(students, c)
  {
    if students != [] {
      var init := students[..|students| - 1];
      CampusesMeaning(init);
      forall c
        ensures HasCampus(students, c) <==> HasCampus(init, c) || students[|students| - 1].campus == Some(c)
      {
        if HasCampus(students, c) && students[|students| - 1].campus != Some(c) {
          var i :| 0 <= i < |students| && students[i].campus == Some(c);
          assert init[i] == students[i];
        }
        if HasCampus(init, c) {
          var i :| 0 <= i < |init| && init[i].campus == Some(c);
          assert students[i] == init[i];
        }
      }
    }
  }

  /** A campus keeps its place once listed: the choices for a prefix of the
      students begin the choices for all of them. */
  lemma {:induction false} CampusesPrefix(students: seq<Summary>, k: nat)
    requires k <= |students|
    ensures Campuses(students[..k]) <= Campuses(students)
  {
    if k < |students| {
      var init := students[..|students| - 1];
      assert init[..k] == students[..k];
      CampusesPrefix(init, k);
    } else {
      assert students[..k] == students;
    }
  }

  /** `filtered`: every student for the empty filter, otherwise those whose
      campus is the filter, in order. */
  function Filtered(students: seq<Summary>, campusFilter: string): (r: seq<Summary>)
    ensures campusFilter == "" ==> r == students
    ensures |r| <= |students|
  {
    if campusFilter == "" then students
    else if students == [] then []
    else
      var rest := Filtered(students[..|students| - 1], campusFilter);
      if students[|students| - 1].campus == Some(campusFilter) then rest + [students[|students| - 1]] else rest
  }

  /** The number of students on campus `c`. */
  function OnCampus(students: seq<Summary>, c: string): nat {
    if students == [] then 0
    else OnCampus(students[..|students| - 1], c) + if students[|students| - 1].campus == Some(c) then 1 else 0
  }

  /** Under a non-empty filter the list holds exactly the students of that
      campus, each as often as in the full list. */
  lemma {:induction false} FilteredMeaning(students: seq<Summary>, campusFilter: string)
    requires campusFilter != ""
    ensures forall s :: s in Filtered(students, campusFilter) <==> s in students && s.campus == Some(campusFilter)
    ensures |Filtered(students, campusFilter)| == OnCampus(students, campusFilter)
    ensures forall s ::
      multiset(Filtered(students, campusFilter))[s] == (if s.campus == Some(campusFilter) then multiset(students)[s] else 0)
  {
    if students != [] {
      var init := students[..|students| - 1];
      FilteredMeaning(init, campusFilter);
      assert students == init + [students[|students| - 1]];
    }
  }

  /** The filter keeps the students' order: filtering a prefix of the list gives
      a prefix of the filtered list. */
  lemma {:induction false} FilteredPrefix(students: seq<Summary>, campusFilter: string, k: nat)
    requires k <= |students|
    ensures Filtered(students[..k], campusFilter) <= Filtered(students, campusFilter)
  {
    if k < |students| && campusFilter != "" {
      var init := students[..|students| - 1];
      assert init[..k] == students[..k];
      FilteredPrefix(init, campusFilter, k);
    } else {
      assert k == |students| ==> students[..k] == students;
    }
  }

  /** `a.questionIndex || 0`. */
  function IndexKey(a: Answer): int {
    if a.questionIndex.Some? then a.questionIndex.value else 0
  }

  predicate SortedByIndex(s: seq<Answer>) {
    forall p, q :: 0 <= p < q < |s| ==> IndexKey(s[p]) <= IndexKey(s[q])
  }

  /** Exchanges the answer at `j` with the one before it. */
  method SwapDown(a: array<Answer>, j: int)
    requires 0 < j < a.Length
    modifies a
    ensures a[j - 1] == old(a[j]) && a[j] == old(a[j - 1])
    ensures forall m :: 0 <= m < a.Length && m != j - 1 && m != j ==> a[m] == old(a[m])
    ensures multiset(a[..]) == old(multiset(a[..]))
  {
    a[j - 1], a[j] := a[j], a[j - 1];
  }

  /** The comparator sort `(a, b) => (a.questionIndex || 0) - (b.questionIndex || 0)`,
      in place: an insertion sort by adjacent swaps. */
  method SortAnswers(a: array<Answer>)
    modifies a
    ensures SortedByIndex(a[..])
    ensures multiset(a[..]) == multiset(old(a[..]))
  {
    for i := 0 to a.Length
      invariant forall m, n :: 0 <= m < n < i ==> IndexKey(a[m]) <= IndexKey(a[n])
      invariant multiset(a[..]) == multiset(old(a[..]))
    {
      var j := i;
      while j > 0 && IndexKey(a[j - 1]) > IndexKey(a[j])
        invariant 0 <= j <= i
        invariant forall m, n :: 0 <= m < n <= i && n != j ==> IndexKey(a[m]) <= IndexKey(a[n])
        invariant multiset(a[..]) == multiset(old(a[..]))
      {
        SwapDown(a, j);
        j := j - 1;
      }
    }
  }

  /** `loadStudent` once the record is fetched: its answers, when it has them,
      are put in question order; a failed fetch selects nothing. */
  method LoadStudent(data: Option<Detail>) returns (selected: Option<Detail>)
    ensures selected.None? <==> data.None?
    ensures data.Some? && data.value.answers.None? ==> selected == data
    ensures data.Some? && data.value.answers.Some? ==>
      && selected.Some? && selected.value == data.value.(answers := selected.value.answers)
      && selected.value.answers.Some?
      && SortedByIndex(selected.value.answers.value)
      && multiset(selected.value.answers.value) == multiset(data.value.answers.value)
  {
    if data.None? {
      return None;
    }
    var d := data.value;
    if d.answers.None? {
      return data;
    }
    var a := new Answer[|d.answers.value|](i requires 0 <= i < |d.answers.value| => d.answers.value[i]);
    assert a[..] == d.answers.value;
    SortAnswers(a);
    selected := Some(d.(answers := Some(a[..])));
  }

  /** A character `[a-z0-9_\-]` matches without regard to case. */
  predicate SafeChar(c: char) {
    ('a' <= c <= 'z') || ('A' <= c <= 'Z') || ('0' <= c <= '9') || c == '_' || c == '-'
  }

  /** `campusFilter.replace(/[^a-z0-9_\-]/gi, "_").slice(0, 50) || "campus"`. */
  function SafeName(campusFilter: string): (name: string)
    ensures name != [] && |name| <= 50
    ensures forall i :: 0 <= i < |name| ==> SafeChar(name[i])
    ensures campusFilter != "" ==> |name| == if |campusFilter| < 50 then |campusFilter| else 50
    ensures campusFilter != "" ==> forall i :: 0 <= i < |name| ==>
      name[i] == if SafeChar(campusFilter[i]) then campusFilter[i] else '_'
    ensures campusFilter == "" ==> name == "campus"
  {
    var replaced := seq(|campusFilter|, i requires 0 <= i < |campusFilter| =>
      if SafeChar(campusFilter[i]) then campusFilter[i] else '_');
    var sliced := if |replaced| <= 50 then replaced else replaced[..50];
    if sliced == "" then "campus" else sliced
  }

  /** A safe name is its own safe name. */
  lemma SafeNameIdempotent(campusFilter: string)
    ensures SafeName(SafeName(campusFilter)) == SafeName(campusFilter)
  {
    var n := SafeName(campusFilter);
    assert forall i :: 0 <= i < |SafeName(n)| ==> SafeName(n)[i] == n[i];
  }

  /** A name made of allowed characters and at most 50 long is kept as it is. */
  lemma SafeNameKeepsSafe(campusFilter: string)
    requires campusFilter != "" && |campusFilter| <= 50
    requires forall i :: 0 <= i < |campusFilter| ==> SafeChar(campusFilter[i])
    ensures SafeName(campusFilter) == campusFilter
  {
  }

  /** What the "export selected campus" button ends with. */
  datatype Export = AskForCampus | Cancelled | NoStudents | Download(filename: string, csv: string)

  /** `(s.campus || "") === campusFilter`. */
  predicate ExportPicks(s: Detail, campusFilter: string) {
    OrEmpty(s.campus) == campusFilter
  }

  function CampusDetails(details: seq<Detail>, campusFilter: string): seq<Detail> {
    if details == [] then []
    else
      var rest := CampusDetails(details[..|details| - 1], campusFilter);
      if ExportPicks(details[|details| - 1], campusFilter) then rest + [details[|details| - 1]] else rest
  }

  /** `exportPerCampusCSVs`, given the question list, the answer to the
      confirmation, the loaded details and the time stamp: no campus asks for one;
      a refusal cancels; no student of the campus exports nothing; otherwise the
      campus's students are exported under `students_<safe name>_<stamp>.csv`. */
  function ExportCampus(qs: seq<Question>, campusFilter: string, confirmed: bool, details: seq<Detail>, stamp: string): (e: Export)
    ensures e == AskForCampus <==> campusFilter == ""
    ensures e == Cancelled <==> campusFilter != "" && !confirmed
    ensures e == NoStudents <==> campusFilter != "" && confirmed && CampusDetails(details, campusFilter) == []
    ensures e.Download? ==>
      && e.filename == "students_" + SafeName(campusFilter) + "_" + stamp + ".csv"
      && e.csv == Csv(qs, CampusDetails(details, campusFilter))
  {
    if campusFilter == "" then AskForCampus
    else if !confirmed then Cancelled
    else
      var picked := CampusDetails(details, campusFilter);
      if picked == [] then NoStudents
      else Download("students_" + SafeName(campusFilter) + "_" + stamp + ".csv", Csv(qs, picked))
  }

  /** For a chosen campus the export picks the students the filtered list shows:
      `(campus || "") === f` and `campus === f` agree when `f` is not empty. */
  lemma ExportPicksAsFiltered(campus: Option<string>, campusFilter: string)
    requires campusFilter != ""
    ensures OrEmpty(campus) == campusFilter <==> campus == Some(campusFilter)
  {
  }

  /** The exported students are exactly the campus's students, each as often as
      in the loaded list. */
  lemma {:induction false} CampusDetailsMeaning(details: seq<Detail>, campusFilter: string)
    requires campusFilter != ""
    ensures forall s :: s in CampusDetails(details, campusFilter) <==> s in details && s.campus == Some(campusFilter)
    ensures forall s ::
      multiset(CampusDetails(details, campusFilter))[s] == (if s.campus == Some(campusFilter) then multiset(details)[s] else 0)
  {
    if details != [] {
      CampusDetailsMeaning(details[..|details| - 1], campusFilter);
      assert details == details[..|details| - 1] + [details[|details| - 1]];
    }
  }

  /** The export keeps the loaded order: the students picked from a prefix of the
      list are a prefix of those picked from the whole list. */
  lemma {:induction false} CampusDetailsPrefix(details: seq<Detail>, campusFilter: string, k: nat)
    requires k <= |details|
    ensures CampusDetails(details[..k], campusFilter) <= CampusDetails(details, campusFilter)
  {
    if k < |details| {
      var init := details[..|details| - 1];
      assert init[..k] == details[..k];
      CampusDetailsPrefix(init, campusFilter, k);
    } else {
      assert details[..k] == details;
    }
  }

  const Colors: seq<string> := ["bg-indigo-500", "bg-rose-500", "bg-emerald-500", "bg-sky-500", "bg-violet-500"]

  /** `avatarColor`: the palette entry chosen by the name's length modulo 5. */
  function AvatarColor(name: Option<string>): (color: string)
    ensures color in Colors
  {
    Colors[|OrEmpty(name)| % |Colors|]
  }

  /** Two names share a colour exactly when their lengths agree modulo 5. */
  lemma AvatarColorCycle(a: string, b: string)
    ensures AvatarColor(Some(a)) == AvatarColor(Some(b)) <==> |a| % 5 == |b| % 5
  {
  }
}
