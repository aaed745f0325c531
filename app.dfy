/** The application's own handlers: the `lecturers`, `subjects` and `homeworks`
    tables (the "database mockup") with list, get-by-id, create, update and delete
    for each. */
module App {
  import opened Js
  import opened Http
  import opened Tables

  datatype Lecturer = Lecturer(id: nat, firstName: string, lastName: string, email: string, userId: real)

  datatype Subject = Subject(id: nat, name: string, lecturerId: real, userId: real)

  /** `dueDate` is `Date.now()` on the seeded homeworks; a created homework has no
      such key at all, which is `None`. */
  datatype Homework = Homework(id: nat, description: string, dueDate: Option<int>, subjectId: real, userId: real)

  function LecturerId(l: Lecturer): nat { l.id }
  function SubjectId(s: Subject): nat { s.id }
  function HomeworkId(h: Homework): nat { h.id }

  function SeedLecturers(): seq<Lecturer> {
    [ Lecturer(0, "Kalle", "Kuld", "kalle.kuld@tlu.ee", 0.0),
      Lecturer(1, "Malle", "Muld", "malle.muld@tlu.ee", 0.0) ]
  }

  function SeedSubjects(): seq<Subject> {
    [ Subject(0, "Riistvara ja operatsioonisüsteemide alused", 0.0, 0.0),
      Subject(1, "Programmeerimine II", 0.0, 0.0) ]
  }

  /** `now0` and `now1` are the readings the two `Date.now()` calls take at start-up. */
  function SeedHomeworks(now0: int, now1: int): seq<Homework> {
    [ Homework(0, "Esimene kodutöö", Some(now0), 0.0, 0.0),
      Homework(1, "Teine kodutöö", Some(now1), 0.0, 0.0) ]
  }

  /** Every seeded table starts with ids equal to positions. */
  lemma SeedIdsArePositions(now0: int, now1: int)
    ensures IdsArePositions(SeedLecturers(), LecturerId)
    ensures IdsArePositions(SeedSubjects(), SubjectId)
    ensures IdsArePositions(SeedHomeworks(now0, now1), HomeworkId)
  {
  }

  // ---- Lecturers ----

  predicate LecturerFieldsValid(body: Body) {
    ValidStr(Field(body, "firstName"), 0) && ValidStr(Field(body, "lastName"), 0)
    && ValidStr(Field(body, "email"), 0) && IsNum(Field(body, "userId"))
  }

  /** The lecturer create stores: the given id and the body's own fields. */
  function NewLecturer(body: Body, id: nat): (l: Lecturer)
    requires LecturerFieldsValid(body)
    ensures l.id == id
    ensures Field(body, "firstName") == Str(l.firstName) && Field(body, "lastName") == Str(l.lastName)
    ensures Field(body, "email") == Str(l.email) && Field(body, "userId") == Num(l.userId)
  {
    Lecturer(id, Field(body, "firstName").s, Field(body, "lastName").s,
             Field(body, "email").s, Field(body, "userId").x)
  }

  predicate LecturerUpdateWrites(body: Body) {
    ValidStr(Field(body, "firstName"), 0) || ValidStr(Field(body, "lastName"), 0)
    || ValidStr(Field(body, "email"), 0)
  }

  /** Each of the names and email is the body's value when that is valid, and the old
      value otherwise; id and userId never change. */
  function UpdatedLecturer(l: Lecturer, body: Body): (r: Lecturer)
    ensures ValidStr(Field(body, "firstName"), 0) ==> Field(body, "firstName") == Str(r.firstName)
    ensures !ValidStr(Field(body, "firstName"), 0) ==> r.firstName == l.firstName
    ensures ValidStr(Field(body, "lastName"), 0) ==> Field(body, "lastName") == Str(r.lastName)
    ensures !ValidStr(Field(body, "lastName"), 0) ==> r.lastName == l.lastName
    ensures ValidStr(Field(body, "email"), 0) ==> Field(body, "email") == Str(r.email)
    ensures !ValidStr(Field(body, "email"), 0) ==> r.email == l.email
    ensures r.id == l.id && r.userId == l.userId
  {
    l.(firstName := Overwrite(l.firstName, Field(body, "firstName"), 0),
       lastName := Overwrite(l.lastName, Field(body, "lastName"), 0),
       email := Overwrite(l.email, Field(body, "email"), 0))
  }

  /** Lecturer create keeps ids equal to positions. */
  lemma LecturerCreateKeepsIds(lecturers: seq<Lecturer>, body: Body)
    requires IdsArePositions(lecturers, LecturerId) && LecturerFieldsValid(body)
    ensures IdsArePositions(lecturers + [NewLecturer(body, |lecturers|)], LecturerId)
  {
    PushKeepsIdsIff(lecturers, NewLecturer(body, |lecturers|), LecturerId);
  }

  // ---- Subjects ----

  predicate SubjectFieldsValid(body: Body) {
    ValidStr(Field(body, "name"), 0) && IsNum(Field(body, "lecturerId")) && IsNum(Field(body, "userId"))
  }

  /** The subject create stores: the given id and the body's own fields. */
  function NewSubject(body: Body, id: nat): (r: Subject)
    requires SubjectFieldsValid(body)
    ensures r.id == id && Field(body, "name") == Str(r.name)
    ensures Field(body, "lecturerId") == Num(r.lecturerId) && Field(body, "userId") == Num(r.userId)
  {
    Subject(id, Field(body, "name").s, Field(body, "lecturerId").x, Field(body, "userId").x)
  }

  predicate SubjectUpdateWrites(body: Body) {
    ValidStr(Field(body, "name"), 0) || IsNum(Field(body, "lecturerId"))
  }

  /** The name and lecturerId are the body's values when those are valid, and the old
      values otherwise; a lecturerId of 0 is written too. */
  function UpdatedSubject(s: Subject, body: Body): (r: Subject)
    ensures ValidStr(Field(body, "name"), 0) ==> Field(body, "name") == Str(r.name)
    ensures !ValidStr(Field(body, "name"), 0) ==> r.name == s.name
    ensures IsNum(Field(body, "lecturerId")) ==> Field(body, "lecturerId") == Num(r.lecturerId)
    ensures !IsNum(Field(body, "lecturerId")) ==> r.lecturerId == s.lecturerId
  {
    s.(name := Overwrite(s.name, Field(body, "name"), 0),
       lecturerId := OverwriteNum(s.lecturerId, Field(body, "lecturerId")))
  }

  /** Subject create numbers the new subject by the lecturers table: unless that has
      exactly as many rows as the subjects table, the new subject's id is not its position. */
  lemma SubjectCreateIdsIff(subjects: seq<Subject>, lecturerCount: nat, body: Body)
    requires IdsArePositions(subjects, SubjectId) && SubjectFieldsValid(body)
    ensures IdsArePositions(subjects + [NewSubject(body, lecturerCount)], SubjectId)
            <==> lecturerCount == |subjects|
  {
    PushKeepsIdsIff(subjects, NewSubject(body, lecturerCount), SubjectId);
  }

  /** Subject update never changes a subject's id or userId. */
  lemma SubjectUpdateKeepsOwner(s: Subject, body: Body)
    ensures UpdatedSubject(s, body).id == s.id && UpdatedSubject(s, body).userId == s.userId
  {
  }

  // ---- Homeworks ----

  predicate HomeworkFieldsValid(body: Body) {
    ValidStr(Field(body, "description"), 0) && IsNum(Field(body, "subjectId")) && IsNum(Field(body, "userId"))
  }

  /** The homework create stores: the given id, the body's own fields, and no dueDate
      key whatever the body holds. */
  function NewHomework(body: Body, id: nat): (h: Homework)
    requires HomeworkFieldsValid(body)
    ensures h.id == id && h.dueDate == None && Field(body, "description") == Str(h.description)
    ensures Field(body, "subjectId") == Num(h.subjectId) && Field(body, "userId") == Num(h.userId)
  {
    Homework(id, Field(body, "description").s, None, Field(body, "subjectId").x, Field(body, "userId").x)
  }

  predicate HomeworkUpdateWrites(body: Body) {
    ValidStr(Field(body, "description"), 0) || IsNum(Field(body, "subjectId"))
  }

  /** The description and subjectId are the body's values when those are valid, and
      the old values otherwise; a subjectId of 0 is written too. */
  function UpdatedHomework(h: Homework, body: Body): (r: Homework)
    ensures ValidStr(Field(body, "description"), 0) ==> Field(body, "description") == Str(r.description)
    ensures !ValidStr(Field(body, "description"), 0) ==> r.description == h.description
    ensures IsNum(Field(body, "subjectId")) ==> Field(body, "subjectId") == Num(r.subjectId)
    ensures !IsNum(Field(body, "subjectId")) ==> r.subjectId == h.subjectId
  {
    h.(description := Overwrite(h.description, Field(body, "description"), 0),
       subjectId := OverwriteNum(h.subjectId, Field(body, "subjectId")))
  }

  /** Homework update never changes a homework's id, dueDate or userId, whatever
      `dueDate` the body carries. */
  lemma HomeworkUpdateKeepsDueDateAndOwner(h: Homework, body: Body)
    ensures var r := UpdatedHomework(h, body);
            r.id == h.id && r.dueDate == h.dueDate && r.userId == h.userId
  {
  }

  /** Homework create keeps ids equal to positions. */
  lemma HomeworkCreateKeepsIds(homeworks: seq<Homework>, body: Body)
    requires IdsArePositions(homeworks, HomeworkId) && HomeworkFieldsValid(body)
    ensures IdsArePositions(homeworks + [NewHomework(body, |homeworks|)], HomeworkId)
  {
    PushKeepsIdsIff(homeworks, NewHomework(body, |homeworks|), HomeworkId);
  }

  class Database {
    var lecturers: seq<Lecturer>
    var subjects: seq<Subject>
    var homeworks: seq<Homework>

    /** The seeded tables; `now0` and `now1` stand for the two `Date.now()` readings. */
    constructor (now0: int, now1: int)
      ensures lecturers == SeedLecturers() && subjects == SeedSubjects()
      ensures homeworks == SeedHomeworks(now0, now1)
    {
      lecturers := SeedLecturers();
      subjects := SeedSubjects();
      homeworks := SeedHomeworks(now0, now1);
    }

    // ---- Lecturers ----

    /** GET /api/lecturers */
    method ReadLecturers() returns (reply: Reply<seq<Lecturer>>)
      ensures reply.Success? && reply.status == OK && reply.payload == lecturers
    {
      reply := Success(OK, lecturers);
    }

    /** GET /api/lecturers/:id: a position past the end gives no record. */
    method LecturerById(id: nat) returns (reply: Reply<Option<Lecturer>>)
      ensures reply.Success? && reply.status == OK
      ensures id < |lecturers| ==> reply.payload == Some(lecturers[id])
      ensures |lecturers| <= id ==> reply.payload == None
    {
      if id < |lecturers| {
        reply := Success(OK, Some(lecturers[id]));
      } else {
        reply := Success(OK, None);
      }
    }

    /** POST /api/lecturers: appends a lecturer whose id is the old length; any invalid
        field gives BadRequest and no change. A userId of 0 is accepted. */
    method CreateLecturer(body: Body) returns (reply: Reply<Lecturer>)
      modifies this`lecturers
      ensures reply.Success? <==> LecturerFieldsValid(body)
      ensures reply.Success? ==>
                reply == Success(CREATED, NewLecturer(body, old(|lecturers|)))
                && lecturers == old(lecturers) + [reply.payload]
      ensures reply.BadRequest? ==> lecturers == old(lecturers)
    {
      var firstName := CheckStr(Field(body, "firstName"), 0);
      var lastName := CheckStr(Field(body, "lastName"), 0);
      var email := CheckStr(Field(body, "email"), 0);
      var userId := CheckNum(Field(body, "userId"));
      if Truthy(firstName) && Truthy(lastName) && Truthy(email) && Given(userId) {
        var newLecturer := Lecturer(|lecturers|, firstName.s, lastName.s, email.s, userId.x);
        lecturers := lecturers + [newLecturer];
        reply := Success(CREATED, newLecturer);
      } else {
        reply := BadRequest;
      }
    }

    /** PUT /api/lecturers: with a numeric id, overwrites the supplied valid names and
        email of `lecturers[id]`; a non-numeric id gives BadRequest. Writing to a
        missing record throws in the source, hence the requires. */
    method UpdateLecturer(body: Body) returns (reply: Reply<Option<Lecturer>>)
      requires IsNum(Field(body, "id")) && LecturerUpdateWrites(body) ==> IsIndex(Field(body, "id"), |lecturers|)
      modifies this`lecturers
      ensures !IsNum(Field(body, "id")) ==> reply == BadRequest && lecturers == old(lecturers)
      ensures IsNum(Field(body, "id")) && !IsIndex(Field(body, "id"), |old(lecturers)|) ==>
                reply == Success(OK, None) && lecturers == old(lecturers)
      ensures IsIndex(Field(body, "id"), |old(lecturers)|) ==>
                var i := Index(Field(body, "id"), |old(lecturers)|);
                lecturers == old(lecturers)[i := UpdatedLecturer(old(lecturers)[i], body)]
                && reply == Success(OK, Some(lecturers[i]))
    {
      var id := CheckNum(Field(body, "id"));
      var firstName := CheckStr(Field(body, "firstName"), 0);
      var lastName := CheckStr(Field(body, "lastName"), 0);
      var email := CheckStr(Field(body, "email"), 0);
      if Given(id) {
        // `lecturers[id]` is looked up only when a field is written.
        if Truthy(firstName) || Truthy(lastName) || Truthy(email) {
          var i := Index(id, |lecturers|);
          var lecturer := lecturers[i];
          if Truthy(firstName) {
            lecturer := lecturer.(firstName := firstName.s);
          }
          if Truthy(lastName) {
            lecturer := lecturer.(lastName := lastName.s);
          }
          if Truthy(email) {
            lecturer := lecturer.(email := email.s);
          }
          lecturers := lecturers[i := lecturer];
        }
        reply := Success(OK, Element(lecturers, id));
      } else {
        reply := BadRequest;
      }
    }

    /** DELETE /api/lecturers: `lecturers.splice(id, 1)` for a numeric id. */
    method DeleteLecturer(body: Body) returns (reply: Reply<()>)
      modifies this`lecturers
      ensures !IsNum(Field(body, "id")) ==> reply == BadRequest && lecturers == old(lecturers)
      ensures IsNum(Field(body, "id")) ==>
                reply == Success(OK, ()) && lecturers == SpliceOne(old(lecturers), Field(body, "id").x)
      ensures IsIndex(Field(body, "id"), |old(lecturers)|) ==>
                lecturers == RemoveAt(old(lecturers), Index(Field(body, "id"), |old(lecturers)|))
    {
      var id := CheckNum(Field(body, "id"));
      if Given(id) {
        if IsIndex(id, |lecturers|) {
          SpliceOneAtIndex(lecturers, Index(id, |lecturers|));
        }
        lecturers := SpliceOne(lecturers, id.x);
        reply := Success(OK, ());
      } else {
        reply := BadRequest;
      }
    }

    // ---- Subjects ----

    /** GET /api/subjects */
    method ReadSubjects() returns (reply: Reply<seq<Subject>>)
      ensures reply.Success? && reply.status == OK && reply.payload == subjects
    {
      reply := Success(OK, subjects);
    }

    /** GET /api/subjects/:id: a position past the end gives no record. */
    method SubjectById(id: nat) returns (reply: Reply<Option<Subject>>)
      ensures reply.Success? && reply.status == OK
      ensures id < |subjects| ==> reply.payload == Some(subjects[id])
      ensures |subjects| <= id ==> reply.payload == None
    {
      if id < |subjects| {
        reply := Success(OK, Some(subjects[id]));
      } else {
        reply := Success(OK, None);
      }
    }

    /** POST /api/subjects: appends a subject, but numbers it with the length of the
        lecturers table, not of the subjects table. */
    method CreateSubject(body: Body) returns (reply: Reply<Subject>)
      modifies this`subjects
      ensures reply.Success? <==> SubjectFieldsValid(body)
      ensures reply.Success? ==>
                reply == Success(CREATED, NewSubject(body, |lecturers|))
                && subjects == old(subjects) + [reply.payload]
      ensures reply.BadRequest? ==> subjects == old(subjects)
    {
      var name := CheckStr(Field(body, "name"), 0);
      var lecturerId := CheckNum(Field(body, "lecturerId"));
      var userId := CheckNum(Field(body, "userId"));
      if Truthy(name) && Given(lecturerId) && Given(userId) {
        var newSubject := Subject(|lecturers|, name.s, lecturerId.x, userId.x);
        subjects := subjects + [newSubject];
        reply := Success(CREATED, newSubject);
      } else {
        reply := BadRequest;
      }
    }

    /** PUT /api/subjects: with a numeric id, overwrites the supplied valid name and
        lecturerId of `subjects[id]`; userId is never written. */
    method UpdateSubject(body: Body) returns (reply: Reply<Option<Subject>>)
      requires IsNum(Field(body, "id")) && SubjectUpdateWrites(body) ==> IsIndex(Field(body, "id"), |subjects|)
      modifies this`subjects
      ensures !IsNum(Field(body, "id")) ==> reply == BadRequest && subjects == old(subjects)
      ensures IsNum(Field(body, "id")) && !IsIndex(Field(body, "id"), |old(subjects)|) ==>
                reply == Success(OK, None) && subjects == old(subjects)
      ensures IsIndex(Field(body, "id"), |old(subjects)|) ==>
                var i := Index(Field(body, "id"), |old(subjects)|);
                subjects == old(subjects)[i := UpdatedSubject(old(subjects)[i], body)]
                && reply == Success(OK, Some(subjects[i]))
    {
      var id := CheckNum(Field(body, "id"));
      var name := CheckStr(Field(body, "name"), 0);
      var lecturerId := CheckNum(Field(body, "lecturerId"));
      if Given(id) {
        // `subjects[id]` is looked up only when a field is written.
        if Truthy(name) || Given(lecturerId) {
          var i := Index(id, |subjects|);
          var subject := subjects[i];
          if Truthy(name) {
            subject := subject.(name := name.s);
          }
          if Given(lecturerId) {
            subject := subject.(lecturerId := lecturerId.x);
          }
          subjects := subjects[i := subject];
        }
        reply := Success(OK, Element(subjects, id));
      } else {
        reply := BadRequest;
      }
    }

    /** DELETE /api/subjects: `subjects.splice(id, 1)` for a numeric id. */
    method DeleteSubject(body: Body) returns (reply: Reply<()>)
      modifies this`subjects
      ensures !IsNum(Field(body, "id")) ==> reply == BadRequest && subjects == old(subjects)
      ensures IsNum(Field(body, "id")) ==>
                reply == Success(OK, ()) && subjects == SpliceOne(old(subjects), Field(body, "id").x)
      ensures IsIndex(Field(body, "id"), |old(subjects)|) ==>
                subjects == RemoveAt(old(subjects), Index(Field(body, "id"), |old(subjects)|))
    {
      var id := CheckNum(Field(body, "id"));
      if Given(id) {
        if IsIndex(id, |subjects|) {
          SpliceOneAtIndex(subjects, Index(id, |subjects|));
        }
        subjects := SpliceOne(subjects, id.x);
        reply := Success(OK, ());
      } else {
        reply := BadRequest;
      }
    }

    // ---- Homeworks ----

    /** GET /api/homeworks */
    method ReadHomeworks() returns (reply: Reply<seq<Homework>>)
      ensures reply.Success? && reply.status == OK && reply.payload == homeworks
    {
      reply := Success(OK, homeworks);
    }

    /** GET /api/homeworks/:id: a position past the end gives no record. */
    method HomeworkById(id: nat) returns (reply: Reply<Option<Homework>>)
      ensures reply.Success? && reply.status == OK
      ensures id < |homeworks| ==> reply.payload == Some(homeworks[id])
      ensures |homeworks| <= id ==> reply.payload == None
    {
      if id < |homeworks| {
        reply := Success(OK, Some(homeworks[id]));
      } else {
        reply := Success(OK, None);
      }
    }

    /** POST /api/homeworks: appends a homework whose id is the old length. Its due
        date is `new Date()`, an object and so always truthy, and it is not stored. */
    method CreateHomework(body: Body) returns (reply: Reply<Homework>)
      modifies this`homeworks
      ensures reply.Success? <==> HomeworkFieldsValid(body)
      ensures reply.Success? ==>
                reply == Success(CREATED, NewHomework(body, old(|homeworks|)))
                && homeworks == old(homeworks) + [reply.payload]
                && reply.payload.dueDate == None
      ensures reply.BadRequest? ==> homeworks == old(homeworks)
    {
      var description := CheckStr(Field(body, "description"), 0);
      var dueDate := Obj;
      var subjectId := CheckNum(Field(body, "subjectId"));
      var userId := CheckNum(Field(body, "userId"));
      if Truthy(description) && Truthy(dueDate) && Given(subjectId) && Given(userId) {
        var newHomework := Homework(|homeworks|, description.s, None, subjectId.x, userId.x);
        homeworks := homeworks + [newHomework];
        reply := Success(CREATED, newHomework);
      } else {
        reply := BadRequest;
      }
    }

    /** PUT /api/homeworks: with a numeric id, overwrites the supplied valid description
        and subjectId of `homeworks[id]`; dueDate and userId are never written. */
    method UpdateHomework(body: Body) returns (reply: Reply<Option<Homework>>)
      requires IsNum(Field(body, "id")) && HomeworkUpdateWrites(body) ==> IsIndex(Field(body, "id"), |homeworks|)
      modifies this`homeworks
      ensures !IsNum(Field(body, "id")) ==> reply == BadRequest && homeworks == old(homeworks)
      ensures IsNum(Field(body, "id")) && !IsIndex(Field(body, "id"), |old(homeworks)|) ==>
                reply == Success(OK, None) && homeworks == old(homeworks)
      ensures IsIndex(Field(body, "id"), |old(homeworks)|) ==>
                var i := Index(Field(body, "id"), |old(homeworks)|);
                homeworks == old(homeworks)[i := UpdatedHomework(old(homeworks)[i], body)]
                && reply == Success(OK, Some(homeworks[i]))
    {
      var id := CheckNum(Field(body, "id"));
      var description := CheckStr(Field(body, "description"), 0);
      var subjectId := CheckNum(Field(body, "subjectId"));
      if Given(id) {
        // `homeworks[id]` is looked up only when a field is written.
        if Truthy(description) || Given(subjectId) {
          var i := Index(id, |homeworks|);
          var homework := homeworks[i];
          if Truthy(description) {
            homework := homework.(description := description.s);
          }
          if Given(subjectId) {
            homework := homework.(subjectId := subjectId.x);
          }
          homeworks := homeworks[i := homework];
        }
        reply := Success(OK, Element(homeworks, id));
      } else {
        reply := BadRequest;
      }
    }

    /** DELETE /api/homeworks: `homeworks.splice(id, 1)` for a numeric id. */
    method DeleteHomework(body: Body) returns (reply: Reply<()>)
      modifies this`homeworks
      ensures !IsNum(Field(body, "id")) ==> reply == BadRequest && homeworks == old(homeworks)
      ensures IsNum(Field(body, "id")) ==>
                reply == Success(OK, ()) && homeworks == SpliceOne(old(homeworks), Field(body, "id").x)
      ensures IsIndex(Field(body, "id"), |old(homeworks)|) ==>
                homeworks == RemoveAt(old(homeworks), Index(Field(body, "id"), |old(homeworks)|))
    {
      var id := CheckNum(Field(body, "id"));
      if Given(id) {
        if IsIndex(id, |homeworks|) {
          SpliceOneAtIndex(homeworks, Index(id, |homeworks|));
        }
        homeworks := SpliceOne(homeworks, id.x);
        reply := Success(OK, ());
      } else {
        reply := BadRequest;
      }
    }
  }
}
