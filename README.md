# PDC quiz — a verified model of its core

The PDC quiz is a small web application. A student fills in an intake form
(name, email, contact number, hometown, gender, campus, branch), then answers a
fixed table of 35 questions shown as six category pages. The answers are posted
to an Express/Mongoose backend that stores one record per submission. An admin
page lists the records, filters them by campus, shows per-category and
per-question statistics, and exports CSV files.

This project models in Dafny the logic of that application that is sequential
and deterministic, and proves properties of it:

- `Questions` (`questions.js`): the question table, with its ids, categories,
  texts and options.
- `Quiz` (`Quiz.jsx`):
  - pages cut from the table as slices of 10, 7, 8, 3, 2 and 5 questions;
  - the clamp on a restored page index, and the answer map;
  - the page-complete gate on "Next", "Prev", and the submitted answer array.
  The quiz state is a class whose methods update the answers, the page and the
  two saved entries.
- `InfoForm` (`InfoForm.jsx`): the email and phone validators, the digit
  filter on the contact field, live errors on change and the final check on
  submit. The form state is a class.
- `Api` and `App` (`api.js`, `App.jsx`): both resolutions of the backend base
  URL, the routing by path, the choice of screen, and the screen shell's
  transitions. The shell is a class.
- `StudentModel` and `StudentController` (`Student.js`,
  `studentController.js`): record shapes, and the three handlers over a store
  that is a class holding the records in insertion order.
- The admin page (`Admin.jsx`), split in three modules:
  - `AdminCsv`: `makeCSV` with its answer placement.
  - `AdminStats`: the per-question tally with its "Other" bucket and unanswered
    count, and the per-category statistics of one student.
  - `AdminView`: the campus list and filter, the in-place sort of a loaded
    student's answers, the campus export with its safe file name, and the
    avatar colour.
- Helper modules model the JavaScript built-ins that the properties depend on:
  - `JsText`: `String(n)`, `parseInt`, `split` and `join`.
  - `JsonString`: `JSON.stringify` of a string, with a decoder, so that the
    exported CSV can be shown to read back line by line and cell by cell.
  - `JsObject`: plain objects used as dictionaries with insertion-ordered keys.
  - `Wrappers`: `Option`.

Browser and server effects are parameters:

- the outcome of a `fetch`, and whether a database call succeeds;
- the clock, the answer to `confirm`;
- the environment variable and the host name.

The code has no admission gate, no busy (429) reply and no retry: the health
route only answers `{ ok: true }`, and the client posts the submission once,
without checking the reply's status (see Findings). The server does run a
cluster of worker processes, respawned when one exits; that is process
plumbing and is left out.

## Model

| member | source | states |
|---|---|---|
| Questions.TableLength | frontend/src/data/questions.js:1-375 | the question table has exactly 35 entries |
| Questions.IdsDistinct | frontend/src/data/questions.js:4-370 | no two questions share an id, so looking up any question's id finds that very question |
| Questions.FindIndex | frontend/src/pages/Admin.jsx:130 | `findIndex` by id: the first position holding the id, or -1 exactly when no question has it |
| Questions.OptionListsShape | frontend/src/data/questions.js:7-373 | each question's option list has 3 to 5 entries, no two alike |
| Questions.OptionsShape | frontend/src/data/questions.js:1-375 | every question of the table offers 3 to 5 options, no two alike |
| Questions.OtherIsAnOptionOfCult1 | frontend/src/data/questions.js:284-294 | question `cult-1` (position 25, category Cultural) lists "Other" as one of its options |
| Quiz.Slice | frontend/src/components/Quiz.jsx:21 | `Array.prototype.slice` with clamping: the exact sub-list inside the bounds, empty when the range is empty or past the end |
| Quiz.BuildPages | frontend/src/components/Quiz.jsx:18-23 | the page-building loop yields the consecutive slices of the given sizes |
| Quiz.FlattenPages | frontend/src/components/Quiz.jsx:18-23 | concatenating the pages gives back the question list covered by the sizes, unchanged and in order |
| Quiz.PageAt | frontend/src/components/Quiz.jsx:18-23 | page k is exactly the block of the list that starts after the earlier pages' sizes and is as long as the k-th size |
| Quiz.StartIndex | frontend/src/components/Quiz.jsx:101-105 | the accumulating loop gives the number of questions on all earlier pages |
| Quiz.StartIndexOfPages | frontend/src/components/Quiz.jsx:101-105 | on the built pages the start index is the sum of the earlier group sizes, and numbering from it addresses each page's questions in the full list |
| Quiz.GroupBlock | frontend/src/components/Quiz.jsx:4-11 | each group's block of the question table lies within the table, and every question in it has that group's category |
| Quiz.PagesAreCategoryBlocks | frontend/src/components/Quiz.jsx:4-23 | the six pages have the group sizes, together form the whole question table, and each holds only questions of its group's category |
| Quiz.RestorePage | frontend/src/components/Quiz.jsx:29-34 | the restored page is always a valid page; nothing stored gives page 0; a number is clamped into range; text that does not parse gives 0 |
| Quiz.RestoreSavedPage | frontend/src/components/Quiz.jsx:53 | a page saved with `String(pageIndex)` is restored as the same page (every page index is far below 10^21, where `String` would switch to exponent notation) |
| Quiz.AnsweredCount | frontend/src/components/Quiz.jsx:45-48 | the number of questions holding a non-empty answer; its contract is stated by `Quiz.AnsweredCountSelect` |
| Quiz.AnsweredCountSelect | frontend/src/components/Quiz.jsx:45-48 | selecting an option counts the question as answered: the count goes up by one exactly when that question had no answer before |
| Quiz.PageComplete | frontend/src/components/Quiz.jsx:93-98 | every question of the page has a non-empty answer; its contract is stated by `Quiz.RemainingOnPageZero` and `Quiz.PageCompleteFlatten` |
| Quiz.RemainingOnPage | frontend/src/components/Quiz.jsx:108-110 | the number of questions left on a page never exceeds the page's size |
| Quiz.RemainingOnPageZero | frontend/src/components/Quiz.jsx:93-110 | no question remains on a page exactly when the page is complete |
| Quiz.PageCompleteFlatten | frontend/src/components/Quiz.jsx:93-98 | when every page is complete, the question list they form together is complete |
| Quiz.SubmitAll | frontend/src/components/Quiz.jsx:78-84 | one answer per question in table order, carrying that question's id, category and position + 1, and the chosen option or nothing |
| Quiz.CompleteQuizAnswersAll | frontend/src/components/Quiz.jsx:112-123 | when all six pages are complete, every submitted entry carries an answer |
| Quiz.Session.constructor | frontend/src/components/Quiz.jsx:29-54 | the quiz starts on the restored page with the stored answers (or none), and saves both at once |
| Quiz.Session.Persist | frontend/src/components/Quiz.jsx:50-54 | the saved entries hold the current answers and `String(pageIndex)` |
| Quiz.Session.Select | frontend/src/components/Quiz.jsx:71-76 | the chosen option is recorded for that question, every other answer and the page are unchanged, and the new state is saved |
| Quiz.Session.NextClick | frontend/src/components/Quiz.jsx:112-123 | an incomplete page changes nothing; a complete page that is not the last advances exactly one page; a complete last page submits the full answer array and removes both saved entries |
| Quiz.Session.Prev | frontend/src/components/Quiz.jsx:248-255 | from any page but the first, goes back exactly one page, keeps the answers, and saves |
| InfoForm.EmailIsValid | frontend/src/components/InfoForm.jsx:20 | the email test; its meaning is stated by `InfoForm.EmailOfParts` and `InfoForm.PartsOfEmail` |
| InfoForm.PhoneIsValid | frontend/src/components/InfoForm.jsx:21 | exactly ten digits; its meaning on filtered input is stated by `InfoForm.PhoneOfFiltered` |
| InfoForm.EmailOfParts | frontend/src/components/InfoForm.jsx:20 | every text `a@b.c` with non-empty parts free of whitespace and `@` is a valid email |
| InfoForm.PartsOfEmail | frontend/src/components/InfoForm.jsx:20 | every valid email splits as `a@b.c` with such parts (the converse) |
| InfoForm.StripNonDigits | frontend/src/components/InfoForm.jsx:96-97 | the contact filter leaves only digits and never lengthens the input; its order-keeping is stated by `InfoForm.StripNonDigitsChar` and `InfoForm.StripNonDigitsAppend` |
| InfoForm.StripKeepsDigits | frontend/src/components/InfoForm.jsx:96-97 | the filter keeps every digit of the input, and leaves an all-digit input as it is |
| InfoForm.StripNonDigitsChar | frontend/src/components/InfoForm.jsx:96-97 | one character is kept exactly when it is a digit |
| InfoForm.StripNonDigitsAppend | frontend/src/components/InfoForm.jsx:96-97 | filtering two texts joined is filtering each and joining the results, so the digits are kept in their order |
| InfoForm.PhoneOfFiltered | frontend/src/components/InfoForm.jsx:96-97 | a filtered contact is a valid phone number exactly when the typed text held ten digits |
| InfoForm.EmailError | frontend/src/components/InfoForm.jsx:27-32 | the live email error is empty exactly for an empty or valid email, and otherwise is "Email is invalid" |
| InfoForm.ContactError | frontend/src/components/InfoForm.jsx:33-38 | the live contact error is empty exactly for an empty or valid number, and otherwise is "Phone must be 10 digits" |
| InfoForm.Form.With | frontend/src/components/InfoForm.jsx:24 | changing a field sets that field and leaves every other field as it was |
| InfoForm.Intake.constructor | frontend/src/components/InfoForm.jsx:4-17 | the form starts with every field empty and no errors |
| InfoForm.Intake.Change | frontend/src/components/InfoForm.jsx:23-40 | only the changed field is replaced; only the email or contact error of that field is recomputed |
| InfoForm.Intake.TypeContact | frontend/src/components/InfoForm.jsx:94-98 | typing in the contact box stores the digits of the input only, and revalidates the contact |
| InfoForm.Intake.Submit | frontend/src/components/InfoForm.jsx:42-58 | the form goes on exactly when both email and contact are valid, unchanged; each invalid one gets its error message and a valid one keeps its previous error |
| Api.StripTrailingSlash | frontend/src/api.js:5 | one trailing slash is removed when present, and nothing else changes |
| Api.ApiJsBase | frontend/src/api.js:2-14 | a non-empty override wins without its trailing slash; then no window gives ""; a local host gives the local backend; every other host gives the hosted backend |
| Api.AppBase | frontend/src/App.jsx:7-15 | a local host gives the local backend, the hosted host gives itself over https, and every other host or no window gives "" |
| Api.BasesCompared | frontend/src/api.js:10-13 | without the override the two resolutions agree wherever App.jsx names a backend, and on every other host api.js picks the hosted backend where App.jsx uses its own origin |
| Api.StrippedBaseJoins | frontend/src/api.js:4-5 | an override that does not end in two slashes leaves a base without a trailing slash |
| Api.StudentsUrl | frontend/src/App.jsx:7-29 | a submission goes to `http://localhost:5000/api/students` on a local host, to the hosted backend's route on its own host, and to the relative `/api/students` everywhere else |
| App.Route | frontend/src/App.jsx:45-65 | `/admin` gives the admin page; `/` or no window gives the student flow; every other path gives the 404 page |
| App.ScreenFor | frontend/src/App.jsx:79-98 | no form and no submission gives the intake form; a form and no submission gives the quiz; any submission gives the thank-you screen |
| App.SubmissionBody | frontend/src/App.jsx:28 | the request body carries the answer array and each of the seven form fields (name, email, contact, hometown, gender, campus, branch) as filled in; without a form every field is absent |
| App.Shell.constructor | frontend/src/App.jsx:19-20 | the student flow starts on the intake form |
| App.Shell.Next | frontend/src/App.jsx:22-24 | a completed form is kept and the quiz is shown |
| App.Shell.Back | frontend/src/App.jsx:81 | the quiz's back button drops the form and shows the intake form |
| App.Shell.NewSubmission | frontend/src/App.jsx:91-93 | "New submission" clears the submission and shows the intake form |
| App.Shell.Submit | frontend/src/App.jsx:26-42 | the body is the form plus the answers, posted to the students route for the page's host; any parsed reply, whatever its status, becomes the submission and clears the form; an exception changes nothing |
| App.Shell.SubmitCheckingStatus | frontend/src/App.jsx:35-37 | corrected submit: the same address and body; only a 201 reply becomes the submission; any other reply or an exception keeps the form, so the thank-you screen appears only after a created record |
| App.SampleEntriesValid | frontend/src/components/InfoForm.jsx:20-21 | "a@b.c" is a valid email, and "9876543210" passes the digit filter unchanged and is a valid phone number |
| App.FillIntakeWithoutName | frontend/src/components/InfoForm.jsx:42-58 | the intake form lets through a form with an empty name when email and contact are valid |
| App.EmptyNameThankedAnyway | frontend/src/App.jsx:35-37 | an empty name passes the form; the backend answers 400 and stores nothing; the shell still shows the thank-you screen |
| App.EmptyNameKeptOnQuiz | frontend/src/App.jsx:35-37 | with the status checked, the same student gets 400, nothing is stored, and the quiz stays on screen |
| StudentController.NewRecord | backend/src/controllers/studentController.js:10-19 | the saved document satisfies the schema (non-empty name and email, timestamps in order) and has missing answers replaced by the empty list |
| StudentController.Projections | backend/src/controllers/studentController.js:32-34 | one list entry per record, in store order, with every field but the answers |
| StudentController.InsertNewest | backend/src/controllers/studentController.js:35 | inserting into the sorted list adds exactly the one entry |
| StudentController.InsertNewestSorted | backend/src/controllers/studentController.js:35 | inserting into a newest-first list keeps it newest first |
| StudentController.SortNewestFirstCorrect | backend/src/controllers/studentController.js:35 | the sort by `createdAt` descending yields a newest-first list that is a permutation of its input |
| StudentController.Find | backend/src/controllers/studentController.js:45-46 | a record is found exactly when some record has the id, and the found record is a stored one with that id |
| StudentController.Store.constructor | backend/src/models/Student.js:10-22 | an empty store satisfies the schema invariant: every record well formed, ids increasing |
| StudentController.Store.Create | backend/src/controllers/studentController.js:3-27 | 400 and nothing stored without a name or an email; 500 and nothing stored when saving fails; otherwise exactly one record is appended, with answers defaulted to `[]` and an id no earlier record has, and it is returned with 201 |
| StudentController.Store.List | backend/src/controllers/studentController.js:29-41 | 500 when the query fails; otherwise 200 with the projection of every record, newest first, as a permutation of the records' projections |
| StudentController.Store.GetById | backend/src/controllers/studentController.js:43-52 | on a store satisfying the schema invariant: 500 for an id that does not cast or a failing query; otherwise the stored record with that id, or 404 when there is none |
| JsText.NatToString | frontend/src/components/Quiz.jsx:53 | below 10^21, `String(n)` is a non-empty decimal numeral without a leading zero |
| JsText.NatToStringValue | frontend/src/components/Quiz.jsx:53 | the numeral's digits read back as `n` |
| JsText.NatToStringInjective | frontend/src/components/Quiz.jsx:53 | different pages are saved as different texts |
| JsText.ToNumber | frontend/src/components/Quiz.jsx:30 | a parsed integer is a finite number below the double overflow bound, and an infinity of its sign above it |
| JsText.TrimStart | frontend/src/components/Quiz.jsx:30 | `parseInt` skips exactly the leading whitespace |
| JsText.LeadingDigits | frontend/src/components/Quiz.jsx:30 | `parseInt` reads the longest prefix of digits |
| JsText.ParseIntOfNumeral | frontend/src/components/Quiz.jsx:30 | `parseInt(String(n) + rest)` is `n` whenever `rest` does not begin with a digit |
| JsText.TrimStartBlank | frontend/src/components/Quiz.jsx:30 | `parseInt` skips exactly the leading white space, up to the first other character |
| JsText.ParseIntWithoutDigits | frontend/src/components/Quiz.jsx:30 | white space, at most one sign, then nothing or a character that is no digit, blank or sign: this parses as NaN, so a stored page that is not a number restores page 0 |
| JsText.ParseInt | frontend/src/components/Quiz.jsx:30 | `parseInt(s, 10)` as skip blanks, optional sign, longest digit prefix; its contract is stated by `JsText.ParseIntOfNumeral` and `JsText.ParseIntWithoutDigits` |
| JsText.IndexOf | frontend/src/pages/Admin.jsx:157 | the first occurrence of the separator |
| JsText.Split | frontend/src/pages/Admin.jsx:157 | splitting always gives at least one piece |
| JsText.SplitJoin | frontend/src/pages/Admin.jsx:157 | splitting lines joined by a separator that none of them contains gives the lines back |
| JsonString.Quote | frontend/src/pages/Admin.jsx:122 | `JSON.stringify` of a string is enclosed in quotes and contains no raw newline |
| JsonString.UnquoteQuote | frontend/src/pages/Admin.jsx:141 | decoding a quoted string gives the string back |
| JsonString.QuoteInjective | frontend/src/pages/Admin.jsx:144-152 | different cell values are written as different cells |
| JsonString.ReadBodyEscape | frontend/src/pages/Admin.jsx:141 | an escaped string followed by its closing quote is read back up to that quote, leaving the rest |
| JsonString.Line | frontend/src/pages/Admin.jsx:154 | a CSV line (quoted cells joined by commas) contains no newline |
| JsonString.ParseLineOfLine | frontend/src/pages/Admin.jsx:143-154 | a CSV line reads back as exactly its cells |
| JsObject.Keys | frontend/src/pages/Admin.jsx:268 | the keys of an object, in insertion order |
| JsObject.HasKeys | frontend/src/pages/Admin.jsx:283 | `hasOwnProperty` holds exactly for the object's keys |
| JsObject.Set | frontend/src/pages/Admin.jsx:284 | assigning a property adds that key and no other |
| JsObject.KeysSet | frontend/src/pages/Admin.jsx:268 | assigning an existing key keeps the key order; a new key goes last |
| JsObject.GetSetSame | frontend/src/pages/Admin.jsx:284 | reading the assigned key gives the assigned value |
| JsObject.GetSetOther | frontend/src/pages/Admin.jsx:284 | assigning a key leaves every other key's value as it was |
| JsObject.SetDistinct | frontend/src/pages/Admin.jsx:268 | an object never holds a key twice |
| JsObject.SumBySet | frontend/src/pages/Admin.jsx:284-287 | assigning a key changes the sum of the values by the new value minus the old one |
| AdminCsv.OrEmpty | frontend/src/pages/Admin.jsx:144-152 | `x \|\| ""` is empty exactly when the value is missing or empty, and otherwise is the value itself |
| AdminCsv.SlotOf | frontend/src/pages/Admin.jsx:127-133 | a non-zero `questionIndex` i gives slot i - 1 when 1 <= i <= the number of questions and -1 otherwise; else the answer goes to the first question with its `questionId`, and is dropped (-1) exactly when no question has that id |
| AdminCsv.Placement | frontend/src/pages/Admin.jsx:124-138 | only slots of existing questions are filled |
| AdminCsv.PlaceAnswers | frontend/src/pages/Admin.jsx:124-138 | the `forEach` that fills `qmap` yields the placement of the answers in order |
| AdminCsv.PlacementLastWins | frontend/src/pages/Admin.jsx:136 | a slot holds the text of the last answer placed in it |
| AdminCsv.PlacementUnplaced | frontend/src/pages/Admin.jsx:133-134 | a slot that no answer reaches stays empty |
| AdminCsv.HeaderCells | frontend/src/pages/Admin.jsx:108-121 | the header has the nine field names and then one column per question |
| AdminCsv.SlotCells | frontend/src/pages/Admin.jsx:140-142 | one answer column per question |
| AdminCsv.FieldCells | frontend/src/pages/Admin.jsx:144-152 | nine record cells per row |
| AdminCsv.RowCells | frontend/src/pages/Admin.jsx:143-154 | every row has 9 + the number of questions cells, as many as the header |
| AdminCsv.RowLines | frontend/src/pages/Admin.jsx:123-155 | one line per student |
| AdminCsv.Csv | frontend/src/pages/Admin.jsx:106-158 | the CSV text; its shape and contents are stated by `AdminCsv.CsvShape` and `AdminCsv.SubmittedAnswersInTheirColumns` |
| AdminCsv.MakeCsv | frontend/src/pages/Admin.jsx:106-158 | the loop builds the header line, then each student's row in order, joined by newlines |
| AdminCsv.CsvShape | frontend/src/pages/Admin.jsx:122-157 | the CSV splits at its newlines into the header line and exactly one line per student in input order, and each line reads back as exactly its 9 + number-of-questions cells |
| AdminCsv.SubmittedAnswersInTheirColumns | frontend/src/pages/Admin.jsx:125-142 | exporting what the quiz submits puts each question's chosen option in that question's column, and an empty cell where none was chosen |
| AdminStats.FirstMatch | frontend/src/pages/Admin.jsx:271 | `find` returns the first answer with the question's id, or none when no answer has it |
| AdminStats.Response | frontend/src/pages/Admin.jsx:271-279 | no answer with the question's id gives no response; otherwise the first such answer's text when it is non-empty, and no response when it is missing or empty |
| AdminStats.BumpStep | frontend/src/pages/Admin.jsx:283-286 | bumping a key adds one to that key, keeps every other count, adds the key if it was new, and raises the total by one |
| AdminStats.ZeroCountsShape | frontend/src/pages/Admin.jsx:268 | the initial counts have exactly the question's options as keys, each at 0, summing to 0 |
| AdminStats.CountBucket | frontend/src/pages/Admin.jsx:282-286 | counting a response bumps its own option when it is one, and "Other" otherwise |
| AdminStats.TallyOf | frontend/src/pages/Admin.jsx:266-297 | the tally of one question; `unanswered` never exceeds the number of students, and its other properties are stated by the `Tally…` lemmas below |
| AdminStats.TallyKeys | frontend/src/pages/Admin.jsx:266-297 | the counts have the options as keys, each once, plus "Other" exactly when some response matched no option |
| AdminStats.TallyOptionCounts | frontend/src/pages/Admin.jsx:280-286 | each option other than "Other" is counted once for every student whose response is that option |
| AdminStats.TallyOtherCount | frontend/src/pages/Admin.jsx:280-286 | "Other" counts every response that matches no option, plus the students who picked the option "Other" when the question has one |
| AdminStats.TallyUnanswered | frontend/src/pages/Admin.jsx:272-279 | `unanswered` counts the students with no answer to the question, or with a missing or empty one |
| AdminStats.TallyConserves | frontend/src/pages/Admin.jsx:264-297 | the counts plus the unanswered students add up to the number of students |
| AdminStats.TallyQuestion | frontend/src/pages/Admin.jsx:266-287 | the counting loops yield the tally for the question, and conserve the number of students |
| AdminStats.ComputeQuestionStats | frontend/src/pages/Admin.jsx:264-301 | one entry per question in table order, with that question's id, text, options and tally, whose counts plus unanswered equal the number of students |
| AdminStats.SelectedStats | frontend/src/pages/Admin.jsx:227-237 | no statistics without a selected student with answers; otherwise the per-category statistics of those answers |
| AdminStats.AnsweredWithin | frontend/src/pages/Admin.jsx:231-234 | a category never has more answered than given answers |
| AdminStats.TickStep | frontend/src/pages/Admin.jsx:230-234 | one answer adds one to its category's total, one to its answered count when non-empty, and leaves other categories alone |
| AdminStats.TickSums | frontend/src/pages/Admin.jsx:230-234 | one answer raises the sum of totals by one and the sum of answered by one exactly when it is non-empty |
| AdminStats.ByCategory | frontend/src/pages/Admin.jsx:227-237 | the per-category counts; their meaning is stated by `AdminStats.ByCategoryMeaning` and `AdminStats.ByCategoryTotals` |
| AdminStats.ByCategoryMeaning | frontend/src/pages/Admin.jsx:227-237 | a category appears exactly when some answer has it (a missing category counting as "Other"), and its entry is its number of answers and of non-empty ones |
| AdminStats.ByCategoryTotals | frontend/src/pages/Admin.jsx:227-237 | the totals add up to the number of answers, and the answered counts to the number of non-empty answers |
| AdminStats.AnsweredAtMostTotal | frontend/src/pages/Admin.jsx:233-234 | every category's answered count is at most its total |
| AdminView.Campuses | frontend/src/pages/Admin.jsx:83-86 | never more campuses than students, and no empty campus; the rest is stated by `AdminView.CampusesMeaning` and `AdminView.CampusesPrefix` |
| AdminView.CampusesMeaning | frontend/src/pages/Admin.jsx:83-86 | the campus list has no repetition and holds exactly the non-empty campuses of the students |
| AdminView.CampusesPrefix | frontend/src/pages/Admin.jsx:83-86 | campuses are listed in the order they are first seen |
| AdminView.Filtered | frontend/src/pages/Admin.jsx:89-92 | an empty filter shows every student unchanged, and filtering never adds anyone |
| AdminView.FilteredMeaning | frontend/src/pages/Admin.jsx:89-92 | under a campus filter the list holds exactly the students of that campus, each as often as in the full list, and as many as there are |
| AdminView.FilteredPrefix | frontend/src/pages/Admin.jsx:89-92 | filtering keeps the students' order |
| AdminView.SwapDown | frontend/src/pages/Admin.jsx:69-72 | one exchange of neighbours, which keeps the answers a permutation |
| AdminView.SortAnswers | frontend/src/pages/Admin.jsx:69-72 | the answers end sorted by question index, a missing index counting as 0, and are a permutation of the fetched ones |
| AdminView.LoadStudent | frontend/src/pages/Admin.jsx:64-80 | a failed fetch selects nothing; a record without answers is selected as it is; otherwise the same record is selected with its answers sorted by index and a permutation of the fetched ones |
| AdminView.SafeName | frontend/src/pages/Admin.jsx:204-205 | the file-name part is non-empty, at most 50 characters, made of letters, digits, `_` and `-`; each character of the campus name is kept or becomes `_`; an empty name gives "campus" |
| AdminView.SafeNameIdempotent | frontend/src/pages/Admin.jsx:204-205 | a safe name is its own safe name |
| AdminView.SafeNameKeepsSafe | frontend/src/pages/Admin.jsx:204-205 | a campus name already safe and at most 50 long is kept as it is |
| AdminView.ExportCampus | frontend/src/pages/Admin.jsx:181-213 | no campus asks for one; a refused confirmation cancels; no student of the campus exports nothing; otherwise the campus's students are exported as `students_<safe name>_<stamp>.csv` |
| AdminView.ExportPicksAsFiltered | frontend/src/pages/Admin.jsx:196-198 | for a chosen campus the export's test picks the same students as the list filter |
| AdminView.CampusDetailsMeaning | frontend/src/pages/Admin.jsx:196-198 | the exported students are exactly the loaded students of the campus, each as often as in the loaded list |
| AdminView.CampusDetailsPrefix | frontend/src/pages/Admin.jsx:196-198 | the export keeps the loaded order: picking from a prefix of the list gives a prefix of the picked students |
| AdminView.AvatarColor | frontend/src/pages/Admin.jsx:215-225 | the colour is always one of the five palette entries |
| AdminView.AvatarColorCycle | frontend/src/pages/Admin.jsx:215-225 | two names get the same colour exactly when their lengths agree modulo 5 |

## Left out

- Cluster forking and worker respawn, server timeouts, the database
  connection, Express wiring and routes, and the health route. These are
  process plumbing and I/O.
- There is no admission gate, busy reply or retry protocol in the code, so
  the model has none.
- Browser effects are left out: `fetch`, `window.scrollTo`, `beforeunload`,
  Blob downloads, `alert`, rendering. `confirm`, the host name and the path
  are parameters. Fetch outcomes and database success are parameters. The
  clock and the export's time stamp are parameters.
- The admin password gate and its saved flag. These are UI session plumbing.
- The progress percentages. They are floating-point rounding.
- `loadAllDetails` and `exportAllCSV`: fetching every record over the network,
  caching it, and the "Export failed" path. The export takes the loaded
  details as a parameter, and takes the question list as a parameter (the
  page passes the question table).
- "Save & Exit" on the quiz, which saves and leaves the page.
- Categories are given by each question's block of the table rather than by
  a stored field per entry.
- Quiz.Session.constructor: the saved answers are kept as the map itself,
  not as its JSON text. A parse failure or a missing entry gives the empty
  map. Stored values that are not strings are not modelled.
- InfoForm.Intake.Submit: the email input has `type="email"` in a form without
  `noValidate`, so the browser's own email check runs before `handleSubmit`
  and blocks some texts the regular expression accepts (such as "a@b..c" or
  "a@b_c.d"). That browser check is not modelled: the model passes such a
  form on.
- InfoForm.Intake.TypeContact: the input's `maxLength` of 10, which the
  browser applies while typing, is not modelled.
- JsText.ParseInt: the rounding of integers above 2^53 to the nearest double
  is not modelled. The value is kept exact below the overflow bound.
- JsText.NatToString: from 10^21 on, JavaScript's `String(n)` switches to
  exponent notation ("1e+21"). The model writes plain digits and states its
  numeral properties below 10^21 only. Page indexes and counts never come
  near that bound.
- JsonString.Quote: strings are sequences of Unicode scalar values, so the
  escaping of lone surrogates is not representable.
- AdminView.SafeName: JavaScript replaces and slices UTF-16 code units. A
  character outside the Basic Multilingual Plane becomes two `_` there and
  one here, and the 50-unit cut can fall inside such a character.
- AdminView.AvatarColor: the length is counted in characters, not UTF-16
  code units. It differs only for names with characters outside the Basic
  Multilingual Plane.
- AdminView.SortAnswers: the result is proved sorted and a permutation. The
  stability of `Array.prototype.sort` (equal indexes keeping their order) is
  not stated. A `questionIndex` that is not an integer, or that is a string,
  is not modelled.
- StudentController.Store.List: the order of records with equal `createdAt`
  is not fixed. Any newest-first permutation is allowed.
- Mongoose casting and validation are abstracted:
  - ids are natural numbers from a counter;
  - an id that does not cast is `MalformedId`, which gives a 500;
  - timestamps are integers;
  - the admin page's parsed records keep every field as an optional string.
- AdminStats.SelectedStats: `byCat[cat] || {…}` on a plain object also sees
  keys inherited from `Object.prototype`. A category named "toString",
  "constructor" or "__proto__" would read an inherited value there. The model
  treats the object as a dictionary with own keys only.
- AdminStats.ComputeQuestionStats: JavaScript lists integer-like keys of an
  object first, in numeric order, and `__proto__` is special as a key. The
  counts and categories are modelled as insertion-ordered dictionaries.

## Findings

| source | as written | input that shows it | evidently intended | confidence | as-written member | corrected member |
|---|---|---|---|---|---|---|
| frontend/src/App.jsx:35-37 | every parsed reply becomes the submission and clears the form, whatever its HTTP status | name "", email "a@b.c", contact "9876543210": the intake form accepts it, the backend replies 400 "name and email required" and stores nothing, and the thank-you screen still appears | only a created record (status 201) ends the flow; any other reply keeps the quiz and the form | not executed | App.EmptyNameThankedAnyway | App.Shell.SubmitCheckingStatus |
