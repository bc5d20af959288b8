/** The three request handlers of backend/src/controllers/studentController.js over
    an abstract record store: `createStudent`, `getStudents` and `getStudentById`.
    The database is a sequence of records in insertion order; whether a database
    call succeeds, and the clock, are parameters. */
module StudentController {
  import opened Wrappers
  import opened StudentModel

  /** The JSON body of a create request. */
  datatype Body = Body(
    name: Option<string>,
    email: Option<string>,
    contact: Option<string>,
    hometown: Option<string>,
    gender: Option<string>,
    campus: Option<string>,
    branch: Option<string>,
    answers: Option<seq<Answer>>)

  /** The JSON body of a response. */
  datatype Payload = Record(student: Student) | Records(list: seq<Summary>) | Message(text: string)

  /** An HTTP status with its JSON body. */
  datatype Reply = Reply(status: int, payload: Payload)

  /** The `:id` path parameter: a well-formed object id naming `n`, or a string
      that does not cast to one. */
  datatype RequestId = WellFormedId(n: nat) | MalformedId

  const ServerError: Reply := Reply(500, Message("Server error"))

  /** The guard `!name || !email`, negated. */
  predicate Accepts(body: Body) {
    Truthy(body.name) && Truthy(body.email)
  }

  /** The document `createStudent` builds and saves: missing answers become `[]`,
      both timestamps are the time of saving. */
  function NewRecord(body: Body, id: nat, now: int): (s: Student)
    requires Accepts(body)
    ensures WellFormed(s) && s.id == id
    ensures s.answers == if body.answers.Some? then body.answers.value else []
  {
    Student(id, body.name.value, body.email.value, body.contact, body.hometown, body.gender,
            body.campus, body.branch, body.answers.GetOr([]), now, now)
  }

  /** The list-view projection of every record, in store order. */
  function Projections(rs: seq<Student>): (ps: seq<Summary>)
    ensures |ps| == |rs|
    ensures forall i :: 0 <= i < |rs| ==> ps[i] == Project(rs[i])
  {
    if rs == [] then [] else [Project(rs[0])] + Projections(rs[1..])
  }

  /** Newest first: `createdAt` never increases along the list. */
  predicate NewestFirst(ps: seq<Summary>) {
    forall i, j :: 0 <= i < j < |ps| ==> ps[i].createdAt >= ps[j].createdAt
  }

  /** Inserts one summary into a list kept newest first. */
  function InsertNewest(p: Summary, ps: seq<Summary>): (r: seq<Summary>)
    ensures multiset(r) == multiset(ps) + multiset{p}
  {
    if ps == [] || ps[0].createdAt <= p.createdAt then [p] + ps
    else
      assert ps == [ps[0]] + ps[1..];
      [ps[0]] + InsertNewest(p, ps[1..])
  }

  /** `sort({ createdAt: -1 })`. */
  function SortNewestFirst(ps: seq<Summary>): seq<Summary> {
    if ps == [] then [] else InsertNewest(ps[0], SortNewestFirst(ps[1..]))
  }

  lemma {:induction false} InsertNewestSorted(p: Summary, ps: seq<Summary>)
    requires NewestFirst(ps)
    ensures NewestFirst(InsertNewest(p, ps))
  {
    if ps != [] && ps[0].createdAt > p.createdAt {
      InsertNewestSorted(p, ps[1..]);
      var r := InsertNewest(p, ps);
      var tail := InsertNewest(p, ps[1..]);
      assert r == [ps[0]] + tail;
      forall k | 0 <= k < |tail|
        ensures ps[0].createdAt >= tail[k].createdAt
      {
        assert tail[k] in multiset(tail);
        assert tail[k] == p || tail[k] in multiset(ps[1..]);
        if tail[k] != p {
          assert tail[k] in ps[1..];
        }
      }
    }
  }

  /** The list is sorted newest first and holds exactly the projected records. */
  lemma {:induction false} SortNewestFirstCorrect(ps: seq<Summary>)
    ensures NewestFirst(SortNewestFirst(ps))
    ensures multiset(SortNewestFirst(ps)) == multiset(ps)
  {
    if ps != [] {
      SortNewestFirstCorrect(ps[1..]);
      InsertNewestSorted(ps[0], SortNewestFirst(ps[1..]));
      assert ps == [ps[0]] + ps[1..];
    }
  }

  /** The record with the given id, if any. */
  function Find(rs: seq<Student>, n: nat): (r: Option<Student>)
    ensures r.Some? <==> exists i :: 0 <= i < |rs| && rs[i].id == n
    ensures r.Some? ==> r.value in rs && r.value.id == n
  {
    if rs == [] then None
    else if rs[0].id == n then Some(rs[0])
    else Find(rs[1..], n)
  }

  class Store {
    /** The stored records, oldest first. */
    var records: seq<Student>
    /** The id the next saved record receives. */
    var nextId: nat

    /** Every record is well formed, and ids are increasing and below `nextId`,
        so no two records share an id. */
    ghost predicate Valid()
      reads this
    {
      && (forall i :: 0 <= i < |records| ==> WellFormed(records[i]) && records[i].id < nextId)
      && (forall i, j :: 0 <= i < j < |records| ==> records[i].id < records[j].id)
    }

    constructor ()
      ensures Valid() && records == []
    {
      records, nextId := [], 0;
    }

    /** `createStudent`: 400 without a name or an email; otherwise one new record
        is appended and returned with 201, whatever records exist already; a
        failing save is a 500. */
    method Create(body: Body, now: int, saveSucceeds: bool) returns (reply: Reply)
      requires Valid()
      modifies this
      ensures Valid()
      ensures !Accepts(body) ==>
        reply == Reply(400, Message("name and email required")) && records == old(records)
      ensures Accepts(body) && !saveSucceeds ==> reply == ServerError && records == old(records)
      ensures Accepts(body) && saveSucceeds ==>
        && records == old(records) + [NewRecord(body, old(nextId), now)]
        && reply == Reply(201, Record(records[|records| - 1]))
        && forall i :: 0 <= i < |old(records)| ==> old(records)[i].id != reply.payload.student.id
    {
      if !Truthy(body.name) || !Truthy(body.email) {
        return Reply(400, Message("name and email required"));
      }
      if !saveSucceeds {
        return ServerError;
      }
      var saved := NewRecord(body, nextId, now);
      records := records + [saved];
      nextId := nextId + 1;
      reply := Reply(201, Record(saved));
    }

    /** `getStudents`: every record's projection, newest first. */
    method List(querySucceeds: bool) returns (reply: Reply)
      ensures !querySucceeds ==> reply == ServerError
      ensures querySucceeds ==>
        && reply.status == 200 && reply.payload.Records?
        && NewestFirst(reply.payload.list)
        && multiset(reply.payload.list) == multiset(Projections(records))
    {
      if !querySucceeds {
        return ServerError;
      }
      var ps := Projections(records);
      SortNewestFirstCorrect(ps);
      reply := Reply(200, Records(SortNewestFirst(ps)));
    }

    /** `getStudentById`: the full record, 404 when no record has the id, and 500
        when the id does not cast or the query fails. */
    method GetById(id: RequestId, querySucceeds: bool) returns (reply: Reply)
      requires Valid()
      ensures !querySucceeds || id.MalformedId? ==> reply == ServerError
      ensures querySucceeds && id.WellFormedId? ==>
        if exists i :: 0 <= i < |records| && records[i].id == id.n
        then reply.status == 200 && reply.payload.Record?
          && reply.payload.student in records && reply.payload.student.id == id.n
        else reply == Reply(404, Message("Student not found"))
    {
      if !querySucceeds || id.MalformedId? {
        return ServerError;
      }
      match Find(records, id.n)
      case None =>
        reply := Reply(404, Message("Student not found"));
      case Some(s) =>
        reply := Reply(200, Record(s));
    }
  }
}
