/** The application shell (frontend/src/App.jsx): path routing, the choice of
    screen from the `info` and `submitted` state, and the transitions on the
    intake form's "next", the quiz's submission, "back" and "new submission". */
module App {
  import opened Wrappers
  import opened Api
  import opened InfoForm
  import opened StudentModel
  import opened StudentController

  /** What the path renders. */
  datatype Page = AdminPage | NotFoundPage | StudentFlow

  /** The route for `window.location.pathname`; without a window the path is "/". */
  function Route(path: Option<string>): (p: Page)
    ensures p == AdminPage <==> path == Some("/admin")
    ensures p == StudentFlow <==> path.None? || path == Some("/")
    ensures p == NotFoundPage <==> path.Some? && path.value != "/admin" && path.value != "/"
  {
    var pathname := path.GetOr("/");
    if pathname == "/admin" then AdminPage
    else if pathname != "/" then NotFoundPage
    else StudentFlow
  }

  /** The screen of the student flow. */
  datatype Screen = IntakeScreen | QuizScreen | ThankYouScreen

  /** `!info && !submitted` shows the form, `info && !submitted` the quiz, and any
      submission the thank-you screen. */
  function ScreenFor(info: Option<Form>, submitted: Option<Payload>): (s: Screen)
    ensures s == IntakeScreen <==> info.None? && submitted.None?
    ensures s == QuizScreen <==> info.Some? && submitted.None?
    ensures s == ThankYouScreen <==> submitted.Some?
  {
    if submitted.Some? then ThankYouScreen
    else if info.Some? then QuizScreen
    else IntakeScreen
  }

  /** The request body `{ ...info, answers }`: every form field is present (the
      form holds strings, possibly empty) and so are the answers. */
  function SubmissionBody(info: Option<Form>, answers: seq<Answer>): (b: Body)
    ensures b.answers == Some(answers)
    ensures info.Some? ==>
      && b.name == Some(info.value.name) && b.email == Some(info.value.email)
      && b.contact == Some(info.value.contact) && b.hometown == Some(info.value.hometown)
      && b.gender == Some(info.value.gender) && b.campus == Some(info.value.campus)
      && b.branch == Some(info.value.branch)
    ensures info.None? ==>
      && b.name.None? && b.email.None? && b.contact.None? && b.hometown.None?
      && b.gender.None? && b.campus.None? && b.branch.None?
  {
    match info
    case None => Body(None, None, None, None, None, None, None, Some(answers))
    case Some(f) =>
      Body(Some(f.name), Some(f.email), Some(f.contact), Some(f.hometown), Some(f.gender),
           Some(f.campus), Some(f.branch), Some(answers))
  }

  /** What `fetch` and `res.json()` give: a reply of any status, or an exception. */
  datatype Outcome = Responded(reply: Reply) | Failed

  class Shell {
    var info: Option<Form>
    var submitted: Option<Payload>

    /** The form and a submission are never held at once. */
    ghost predicate Valid()
      reads this
    {
      !(info.Some? && submitted.Some?)
    }

    function Screen(): Screen
      reads this
    {
      ScreenFor(info, submitted)
    }

    constructor ()
      ensures Valid() && Screen() == IntakeScreen
    {
      info, submitted := None, None;
    }

    /** `handleNext`, passed to the intake form. */
    method Next(form: Form)
      requires Valid() && Screen() == IntakeScreen
      modifies this
      ensures Valid() && info == Some(form) && submitted == old(submitted) && Screen() == QuizScreen
    {
      info := Some(form);
    }

    /** The quiz's "Back": the form is dropped. */
    method Back()
      requires Valid() && Screen() == QuizScreen
      modifies this
      ensures Valid() && info.None? && submitted == old(submitted) && Screen() == IntakeScreen
    {
      info := None;
    }

    /** "New submission" on the thank-you screen. */
    method NewSubmission()
      requires Valid() && Screen() == ThankYouScreen
      modifies this
      ensures Valid() && submitted.None? && info == old(info) && Screen() == IntakeScreen
    {
      submitted := None;
    }

    /** `handleSubmit` as written, on the page's host: the body is posted to the
        students route; whatever reply is parsed becomes the submission, whatever
        its status; an exception changes nothing. */
    method Submit(host: Option<string>, answers: seq<Answer>, outcome: Outcome) returns (url: string, request: Body)
      requires Valid()
      modifies this
      ensures Valid() && url == StudentsUrl(host) && request == SubmissionBody(old(info), answers)
      ensures outcome.Responded? ==>
        submitted == Some(outcome.reply.payload) && info.None? && Screen() == ThankYouScreen
      ensures outcome.Failed? ==> info == old(info) && submitted == old(submitted)
    {
      url := StudentsUrl(host);
      request := SubmissionBody(info, answers);
      if outcome.Responded? {
        submitted := Some(outcome.reply.payload);
        info := None;
      }
    }

    /** `handleSubmit` as evidently intended: only a created record becomes the
        submission; any other reply keeps the quiz on screen with its form. */
    method SubmitCheckingStatus(host: Option<string>, answers: seq<Answer>, outcome: Outcome)
      returns (url: string, request: Body)
      requires Valid()
      modifies this
      ensures Valid() && url == StudentsUrl(host) && request == SubmissionBody(old(info), answers)
      ensures outcome.Responded? && outcome.reply.status == 201 ==>
        submitted == Some(outcome.reply.payload) && info.None?
      ensures !(outcome.Responded? && outcome.reply.status == 201) ==>
        info == old(info) && submitted == old(submitted)
      ensures Screen() == ThankYouScreen && old(Screen()) != ThankYouScreen ==>
        outcome.Responded? && outcome.reply.status == 201
    {
      url := StudentsUrl(host);
      request := SubmissionBody(info, answers);
      if outcome.Responded? && outcome.reply.status == 201 {
        submitted := Some(outcome.reply.payload);
        info := None;
      }
    }
  }

  const SampleEmail := "a@b.c"
  const SampleContact := "9876543210"

  lemma SampleEntriesValid()
    ensures EmailIsValid(SampleEmail)
    ensures StripNonDigits(SampleContact) == SampleContact && PhoneIsValid(SampleContact)
  {
    EmailOfParts("a", "b", "c");
    assert "a" + ['@'] + "b" + ['.'] + "c" == SampleEmail;
    StripKeepsDigits(SampleContact);
  }

  /** The intake form filled with a valid email and contact number and nothing
      else: it lets the form through with an empty name. */
  method FillIntakeWithoutName() returns (form: Form)
    ensures form.name == "" && EmailIsValid(form.email) && PhoneIsValid(form.contact)
  {
    var intake := new Intake();
    intake.Change(Email, SampleEmail);
    SampleEntriesValid();
    intake.TypeContact(SampleContact);
    var next := intake.Submit();
    form := next.value;
  }

  /** A student who leaves the name empty but types a valid email and contact
      number: the intake form lets them through, the backend rejects the record
      with 400 and stores nothing, and the shell still shows the thank-you screen. */
  method EmptyNameThankedAnyway(answers: seq<Answer>, now: int)
    returns (status: int, stored: nat, screen: Screen)
    ensures status == 400 && stored == 0 && screen == ThankYouScreen
  {
    var form := FillIntakeWithoutName();
    var shell := new Shell();
    shell.Next(form);
    var store := new Store();
    var reply := store.Create(SubmissionBody(shell.info, answers), now, true);
    var _, _ := shell.Submit(None, answers, Responded(reply));
    status, stored, screen := reply.status, |store.records|, shell.Screen();
  }

  /** The same student with the status checked: the quiz stays on screen. */
  method EmptyNameKeptOnQuiz(answers: seq<Answer>, now: int)
    returns (status: int, stored: nat, screen: Screen)
    ensures status == 400 && stored == 0 && screen == QuizScreen
  {
    var form := FillIntakeWithoutName();
    var shell := new Shell();
    shell.Next(form);
    var store := new Store();
    var reply := store.Create(SubmissionBody(shell.info, answers), now, true);
    var _, _ := shell.SubmitCheckingStatus(None, answers, Responded(reply));
    status, stored, screen := reply.status, |store.records|, shell.Screen();
  }
}
