/** The stored record shapes of the backend (backend/src/models/Student.js): a
    student with two required fields, five optional ones, an ordered list of
    answers and the two timestamps the store stamps on it. */
module StudentModel {
  import opened Wrappers

  /** One answer as the quiz submits it and the store keeps it; no field is required. */
  datatype Answer = Answer(
    questionId: Option<string>,
    category: Option<string>,
    questionIndex: Option<int>,
    answer: Option<string>)

  /** A stored submission. `id` is the store's `_id`; times are milliseconds. */
  datatype Student = Student(
    id: nat,
    name: string,
    email: string,
    contact: Option<string>,
    hometown: Option<string>,
    gender: Option<string>,
    campus: Option<string>,
    branch: Option<string>,
    answers: seq<Answer>,
    createdAt: int,
    updatedAt: int)

  /** What the admin list view receives for each record: every field but `answers`
      and `updatedAt` (the projection keeps `_id`). */
  datatype Summary = Summary(
    id: nat,
    name: string,
    email: string,
    contact: Option<string>,
    hometown: Option<string>,
    gender: Option<string>,
    campus: Option<string>,
    branch: Option<string>,
    createdAt: int)

  /** JavaScript truthiness of an optional string: present and not empty. */
  predicate Truthy(s: Option<string>) {
    s.Some? && s.value != ""
  }

  /** What the schema demands of a stored record: a non-empty `name` and `email`
      (a required string must not be empty), and timestamps in order. */
  predicate WellFormed(s: Student) {
    s.name != "" && s.email != "" && s.createdAt <= s.updatedAt
  }

  /** The list-view projection of one record. */
  function Project(s: Student): Summary {
    Summary(s.id, s.name, s.email, s.contact, s.hometown, s.gender, s.campus, s.branch, s.createdAt)
  }
}
