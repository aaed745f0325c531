# In-memory course records API: a Dafny model

This project models the request handlers of a small Express REST API. The API keeps four
in-memory tables: users, lecturers, subjects and homeworks. Each handler reads its request
body and checks each field:

- a string field must be a string whose `trim()` is longer than a field-specific minimum;
- a number field must have `typeof` `'number'`, and `0` is let through by the
  `x || x === 0` test.

The handler then reads the table, `push`es a new record whose `id` is the current length,
overwrites the supplied valid fields of `table[id]`, or `splice(id, 1)`s.

Modules and files:

- `js.dfy` (`Js`): the JavaScript values a JSON body can carry and JavaScript truthiness.
  It writes out `String.prototype.trim` over the ECMAScript whitespace set. It models the
  two field checks as the source writes them: the ternaries (`CheckStr`, `CheckNum`) and
  the presence tests (`Truthy`, `Given`). The contracts of the ternaries reduce each check
  to a plain property: `ValidStr` for strings, `IsNum` for numbers.
- `http.dfy` (`Http`): `Reply`, which stands in for `res.status(code).json(...)`.
  `Success` carries the status and the payload. `BadRequest` is the uniform 400 with the
  message "Required field(s) missing or invalid".
- `tables.dfy` (`Tables`): array indexing (`Element`) and `push`. It models
  `splice(start, 1)` with JavaScript's truncation and its rules for negative and
  out-of-range starts. It also has the lemmas about the convention that a record's id
  equals its position.
- `users_controller.dfy` (`UsersController`): `api/controllers/usersController.js`, with
  the `users` array as the field of class `Controller`.
- `app.dfy` (`App`): the lecturer, subject and homework handlers of `index.js`, with the
  three arrays as fields of class `Database`.

Each handler that changes a table is a method with a `modifies` clause on its own table.
Its `ensures` give the reply and the whole new table in terms of the old one:

- for create, the old table plus the new record, whose id is the old length;
- for update, the old table with one record replaced by `Updated…`, which overwrites each
  supplied valid field and keeps the rest;
- for delete, `SpliceOne` of the old table.

On every validation failure, the reply is `BadRequest` and the table is unchanged.

## Behaviour kept as written

The model reproduces these behaviours of the code; each is stated by a lemma or an
`ensures` clause:

- Subject create numbers the new subject with the length of the **lecturers** table
  (`index.js:262`). `App.SubjectCreateIdsIff` shows that ids then stay equal to positions
  only when the two tables are the same length.
- Homework create validates no due date. `new Date()` is an object and so always truthy.
  The stored record has no `dueDate` key (`App.Database.CreateHomework`). The route comment
  at `index.js:375` calls dueDate required.
- Create accepts a password whose trimmed length is over 2, but update needs over 3
  (`UsersController.ThreeCharacterPassword`).
- Delete shifts the later records down, so they no longer sit at their ids
  (`Tables.RemoveBreaksIds`). A later create then hands out an id that a survivor already
  has (`Tables.RemoveThenPushRepeatsId`).
- Get-by-id with a position past the end does not fail. The source answers 200 with the
  record `undefined`, so the body has no record; the model replies `Success(200, None)`.
  Update with a numeric id that names no record answers the same way, as long as no field
  is written.
- Update throws when it writes a field of a missing record. That is the only case an
  update's `requires` rules out.
- Only users create leaves out the password. `read` and `readById` return users with
  their passwords.

## Model

| member | source | states |
|---|---|---|
| `Js.TrimStart` | index.js:117 | the leading part `trim` drops is all whitespace, and what remains is a suffix of the input that starts with a non-whitespace character |
| `Js.TrimEnd` | index.js:117 | the trailing part `trim` drops is all whitespace, and what remains is a prefix of the input that ends with a non-whitespace character |
| `Js.Trim` | index.js:117 | `s.trim()` is a slice of `s` with only whitespace before and after it, and a non-empty result neither starts nor ends with whitespace |
| `Js.TrimEmptyIffBlank` | index.js:116-119 | `s.trim()` is empty if and only if every character of `s` is whitespace, so `trim().length > 0` means the field has non-whitespace content |
| `Js.TrimOfSolid` | index.js:117 | a string that neither starts nor ends with whitespace is unchanged by `trim` |
| `Js.TrimIdempotent` | index.js:117 | trimming an already trimmed string changes nothing |
| `Js.Truthy` | index.js:123 | exactly `undefined`, `null`, `false`, `0` and the empty string are falsy; every other value is truthy |
| `Js.Given` | index.js:123 | the test "x, or x equal to 0" fails exactly for `undefined`, `null`, `false` and the empty string, so every number passes it |
| `Js.CheckStr` | index.js:117-123 | a string field's ternary followed by `if (field)` passes exactly when the body holds a string whose trimmed length exceeds the minimum; a passing value is the body's own string, and a failing one is `false` |
| `Js.CheckNum` | index.js:120-123 | a number field's ternary followed by the test "x, or x equal to 0" passes exactly when the body holds a number, zero included; a passing value is the body's own number, and a failing one is `false` |
| `Js.ZeroIsFalsyButGiven` | index.js:123 | a checked `0` is falsy, yet it passes the test "x, or x equal to 0" |
| `Js.ValidStrAntitone` | api/controllers/usersController.js:57 | a string that passes a check with a higher minimum also passes one with a lower minimum |
| `Js.Index` | index.js:167 | a whole-number id inside a table of length n names a position below n equal to the id |
| `Tables.Element` | index.js:182 | `table[id]` gives a record exactly when `id` is the number k of some position k of the table, and then it gives the record at position k |
| `Tables.RemoveAt` | index.js:204 | removing position i shortens the table by one, keeps the records before i, and moves every later record down one place |
| `Tables.RemoveAtMultiset` | index.js:204 | the records after a removal, together with the removed record, are exactly the records before it |
| `Tables.Trunc` | index.js:204 | splice's conversion of its start truncates toward zero: for a start of 0 or more it is the largest whole number not above the start, and for a negative start the smallest whole number not below it |
| `Tables.SpliceStart` | index.js:204 | splice's actual start: a start in 0..n-1 is itself, a start at or past n is n, a start in -n..-1 counts back from the end, and a start below -n is 0 |
| `Tables.SpliceOne` | index.js:204 | when the actual start k of `splice(start, 1)` is a position of the table, the result is one shorter, keeps the records before k, and holds every record after k one place down; when k is the length, the table is unchanged |
| `Tables.SpliceOneAtIndex` | index.js:204 | `splice(i, 1)` with a whole number i inside the table removes exactly position i |
| `Tables.SplicePastEnd` | index.js:204 | `splice(start, 1)` with a start at or past the end leaves the table unchanged |
| `Tables.SpliceMinusOne` | index.js:204 | `splice(-1, 1)` on a non-empty table removes its last record |
| `Tables.PushKeepsIdsIff` | index.js:126-133 | after a push, ids equal positions if and only if they did before and the pushed record's id is the old length |
| `Tables.RemoveBreaksIds` | api/controllers/usersController.js:161 | when ids equal positions, removing any record but the last leaves the next record one place below its id, so ids no longer equal positions |
| `Tables.RemoveThenPushRepeatsId` | index.js:126-133 | removing a record other than the last and then pushing one numbered by the new length gives two records the same id |
| `UsersController.WithoutPassword` | api/controllers/usersController.js:73-75 | the reply's copy of a user keeps every field but the password, so it and the stored password together give back the stored user |
| `UsersController.NewUser` | api/controllers/usersController.js:62-68 | the created user has id equal to the given length and holds the body's own four strings, password included, and its password's trimmed length is over 2 |
| `UsersController.Updated` | api/controllers/usersController.js:115-135 | each of first name, last name and email is the body's string when that string is valid and the old value otherwise; the password likewise, with a trimmed length over 3 |
| `UsersController.UpdatedFrame` | api/controllers/usersController.js:115-135 | a user update never changes the id, changes nothing when no optional field is valid, and gives the same record when repeated |
| `UsersController.ThreeCharacterPassword` | api/controllers/usersController.js:57-113 | every password whose trimmed length is exactly 3 passes create's check, but an update carrying it leaves the stored password as it was |
| `UsersController.UpdatePasswordAcceptedByCreate` | api/controllers/usersController.js:57 | every password that update accepts is also accepted by create |
| `UsersController.Controller.constructor` | api/controllers/usersController.js:1-16 | the table starts with the two seeded users, ids 0 and 1 |
| `UsersController.Controller.Read` | api/controllers/usersController.js:24-30 | status 200 with the whole table, passwords included |
| `UsersController.Controller.ReadById` | api/controllers/usersController.js:37-43 | status 200 with `users[id]`, password included, or with no user when id is past the end |
| `UsersController.Controller.Create` | api/controllers/usersController.js:52-89 | succeeds if and only if first name, last name and email are non-blank strings and the password's trimmed length is over 2; then it appends one user with id equal to the old length that stores all four fields, password included, and replies 201 with that user minus its password; otherwise it replies BadRequest and the table is unchanged |
| `UsersController.Controller.Update` | api/controllers/usersController.js:98-148 | a non-numeric id gives BadRequest with no change; a numeric id naming a user overwrites exactly the supplied valid fields of that user (password only if its trimmed length is over 3) and replies 200 with the updated user, all other users and the length unchanged; a numeric id naming no user replies 200 with no user and no change |
| `UsersController.Controller.Delete` | api/controllers/usersController.js:157-173 | a non-numeric id gives BadRequest with no change; a numeric id splices the table and replies 200, and a whole id inside the table removes exactly that user, moving the later users down one place |
| `UsersController.CreateAfterSeed` | api/controllers/usersController.js:52-81 | on the seeded table, creating user A B a@b.com with password xyz replies 201 with id 2 and no password |
| `App.SeedIdsArePositions` | index.js:14-61 | in the three seeded tables, every record's id is its position |
| `App.NewLecturer` | index.js:125-131 | the created lecturer has the given id and holds the body's own names, email and userId |
| `App.UpdatedLecturer` | index.js:165-178 | each of first name, last name and email is the body's string when that string is valid and the old value otherwise; id and userId are kept |
| `App.LecturerCreateKeepsIds` | index.js:123-133 | lecturer create keeps ids equal to positions |
| `App.NewSubject` | index.js:261-266 | the created subject has the given id and holds the body's own name, lecturerId and userId |
| `App.UpdatedSubject` | index.js:299-307 | the name is the body's string when that is valid, and the old name otherwise; lecturerId is the body's number whenever the body holds a number, 0 included, and the old lecturerId otherwise |
| `App.SubjectCreateIdsIff` | index.js:259-268 | after subject create, subject ids equal positions if and only if the lecturers table had exactly as many rows as the subjects table |
| `App.SubjectUpdateKeepsOwner` | index.js:291-307 | subject update never changes a subject's id or userId |
| `App.NewHomework` | index.js:389-394 | the created homework has the given id, holds the body's own description, subjectId and userId, and has no dueDate whatever the body holds |
| `App.UpdatedHomework` | index.js:428-436 | the description is the body's string when that is valid, and the old one otherwise; subjectId is the body's number whenever the body holds a number, 0 included, and the old subjectId otherwise |
| `App.HomeworkUpdateKeepsDueDateAndOwner` | index.js:419-436 | homework update never changes a homework's id, dueDate or userId |
| `App.HomeworkCreateKeepsIds` | index.js:387-396 | homework create keeps ids equal to positions |
| `App.Database.constructor` | index.js:14-61 | the three tables start with their seeded records; each seeded homework carries as dueDate its own `Date.now()` reading, taken at start-up |
| `App.Database.ReadLecturers` | index.js:87-93 | status 200 with the whole lecturers table |
| `App.Database.LecturerById` | index.js:100-106 | status 200 with `lecturers[id]`, or with no lecturer when id is past the end |
| `App.Database.CreateLecturer` | index.js:115-147 | succeeds if and only if first name, last name and email are non-blank strings and userId is a number, 0 included; then it appends one lecturer with id equal to the old length, storing the given fields, and replies 201 with it; otherwise it replies BadRequest and the table is unchanged |
| `App.Database.UpdateLecturer` | index.js:156-191 | a non-numeric id gives BadRequest with no change; a numeric id naming a lecturer overwrites exactly the supplied valid names and email, never userId, and replies 200 with the updated lecturer, the rest of the table unchanged; a numeric id naming no lecturer replies 200 with no lecturer and no change |
| `App.Database.DeleteLecturer` | index.js:200-216 | a non-numeric id gives BadRequest with no change; a numeric id splices the table and replies 200, and a whole id inside the table removes exactly that lecturer, moving the later ones down |
| `App.Database.ReadSubjects` | index.js:224-230 | status 200 with the whole subjects table |
| `App.Database.SubjectById` | index.js:237-243 | status 200 with `subjects[id]`, or with no subject when id is past the end |
| `App.Database.CreateSubject` | index.js:252-282 | succeeds if and only if the name is a non-blank string and lecturerId and userId are numbers, 0 included; then it appends one subject whose id is the length of the lecturers table, not of the subjects table, and replies 201 with it; otherwise it replies BadRequest and the table is unchanged |
| `App.Database.UpdateSubject` | index.js:291-320 | a non-numeric id gives BadRequest with no change; a numeric id naming a subject overwrites exactly the supplied valid name and lecturerId, never userId, and replies 200 with the updated subject; a numeric id naming no subject replies 200 with no subject and no change |
| `App.Database.DeleteSubject` | index.js:329-345 | a non-numeric id gives BadRequest with no change; a numeric id splices the table and replies 200, and a whole id inside the table removes exactly that subject |
| `App.Database.ReadHomeworks` | index.js:352-358 | status 200 with the whole homeworks table |
| `App.Database.HomeworkById` | index.js:365-371 | status 200 with `homeworks[id]`, or with no homework when id is past the end |
| `App.Database.CreateHomework` | index.js:380-410 | succeeds if and only if the description is a non-blank string and subjectId and userId are numbers, whatever dueDate the body holds; then it appends one homework with id equal to the old length that stores no dueDate, and replies 201 with it; otherwise it replies BadRequest and the table is unchanged |
| `App.Database.UpdateHomework` | index.js:419-449 | a non-numeric id gives BadRequest with no change; a numeric id naming a homework overwrites exactly the supplied valid description and subjectId, never dueDate or userId, and replies 200 with it; a numeric id naming no homework replies 200 with no homework and no change |
| `App.Database.DeleteHomework` | index.js:458-474 | a non-numeric id gives BadRequest with no change; a numeric id splices the table and replies 200, and a whole id inside the table removes exactly that homework |

## Left out

- Express itself is not modelled: the app object, the JSON and urlencoded middleware, route registration, `app.listen` and the ping endpoint. Each handler is a method, and its route is named in its comment.
- The HTTP response is modelled as a status and a payload value. Two things are not modelled: JSON serialisation, and the payload's key name, which the source varies (`lecturer`, `subjects`, `homeworks`; `GET /api/homeworks/:id` uses the key `subjects`).
- Get-by-id takes the route parameter as a natural number. The conversion of the `:id` string is not modelled. For example, `"01"` or `"x"` name no element in JavaScript.
- The two `Date.now()` readings in the seed data (`index.js:50` and `index.js:57`) are the two parameters of the `App.Database` constructor; the clock itself is not modelled. The `new Date()` values in the homework handlers are not stored, so the model keeps only the fact that the value is a truthy object.
- Infinity and -Infinity are not modelled: numbers are finite reals. JSON has no NaN, but `JSON.parse` reads an out-of-range literal such as `1e400` as Infinity, whose `typeof` is `'number'`. Such a value passes every number check. Create would then store an infinite `userId`, `lecturerId` or `subjectId`, which every later reply serialises as `null`, and delete with `-1e400` would run `splice(-Infinity, 1)` and remove record 0.
- String lengths count Unicode code points. JavaScript counts UTF-16 code units, so `trim().length` is larger in the source for characters outside the Basic Multilingual Plane. A JSON string may also hold a lone UTF-16 surrogate such as `"\ud800"`, which the source's string check accepts; a `char` cannot hold one, so no input of the model stands for such a body.
- Records are values, not shared objects. The source serialises each response at once, so the aliasing between a created record and the reply has no visible effect.
- Concurrency is not modelled. Handlers run one at a time to completion, as they do on the Node.js event loop.
