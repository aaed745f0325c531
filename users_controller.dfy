/** The users controller: the `users` table and its read, readById, create,
    update and delete handlers. */
module UsersController {
  import opened Js
  import opened Http
  import opened Tables

  datatype User = User(id: nat, firstName: string, lastName: string, email: string, password: string)

  /** What create sends back: a copy of the new user with its `password` key deleted. */
  datatype PublicUser = PublicUser(id: nat, firstName: string, lastName: string, email: string)

  /** Create takes a password whose trimmed length exceeds 2; update one that exceeds 3. */
  const CREATE_PASSWORD_MIN: nat := 2
  const UPDATE_PASSWORD_MIN: nat := 3

  /** The two users the table holds when the process starts. */
  function SeedUsers(): seq<User> {
    [ User(0, "Juku", "Juurikas", "juku@juurikas.ee", "juku"),
      User(1, "Juhan", "Juurikas", "juhan@juurikas.ee", "juhan") ]
  }

  /** `{ ...user }` followed by `delete copy.password`: every other field is kept, so
      the public user and the stored password together give back the stored user. */
  function WithoutPassword(u: User): (p: PublicUser)
    ensures User(p.id, p.firstName, p.lastName, p.email, u.password) == u
  {
    PublicUser(u.id, u.firstName, u.lastName, u.email)
  }

  /** Every field create requires is present and valid. */
  predicate CreateFieldsValid(body: Body) {
    ValidStr(Field(body, "firstName"), 0) && ValidStr(Field(body, "lastName"), 0)
    && ValidStr(Field(body, "email"), 0) && ValidStr(Field(body, "password"), CREATE_PASSWORD_MIN)
  }

  /** The user create stores for a valid body, given the table's current length:
      id `n` and the body's own four strings, password included. */
  function NewUser(body: Body, n: nat): (u: User)
    requires CreateFieldsValid(body)
    ensures u.id == n
    ensures Field(body, "firstName") == Str(u.firstName) && Field(body, "lastName") == Str(u.lastName)
    ensures Field(body, "email") == Str(u.email) && Field(body, "password") == Str(u.password)
    ensures |Trim(u.password)| > CREATE_PASSWORD_MIN
  {
    User(n, Field(body, "firstName").s, Field(body, "lastName").s,
         Field(body, "email").s, Field(body, "password").s)
  }

  /** Some optional field of an update is present and valid, so update writes to the record. */
  predicate UpdateWritesSomething(body: Body) {
    ValidStr(Field(body, "firstName"), 0) || ValidStr(Field(body, "lastName"), 0)
    || ValidStr(Field(body, "email"), 0) || ValidStr(Field(body, "password"), UPDATE_PASSWORD_MIN)
  }

  /** The record update leaves behind: each field is the body's value when that is
      valid (the password needs a trimmed length over 3), and the old value otherwise. */
  function Updated(u: User, body: Body): (r: User)
    ensures ValidStr(Field(body, "firstName"), 0) ==> Field(body, "firstName") == Str(r.firstName)
    ensures !ValidStr(Field(body, "firstName"), 0) ==> r.firstName == u.firstName
    ensures ValidStr(Field(body, "lastName"), 0) ==> Field(body, "lastName") == Str(r.lastName)
    ensures !ValidStr(Field(body, "lastName"), 0) ==> r.lastName == u.lastName
    ensures ValidStr(Field(body, "email"), 0) ==> Field(body, "email") == Str(r.email)
    ensures !ValidStr(Field(body, "email"), 0) ==> r.email == u.email
    ensures ValidStr(Field(body, "password"), UPDATE_PASSWORD_MIN) ==> Field(body, "password") == Str(r.password)
    ensures !ValidStr(Field(body, "password"), UPDATE_PASSWORD_MIN) ==> r.password == u.password
  {
    u.(firstName := Overwrite(u.firstName, Field(body, "firstName"), 0),
       lastName := Overwrite(u.lastName, Field(body, "lastName"), 0),
       email := Overwrite(u.email, Field(body, "email"), 0),
       password := Overwrite(u.password, Field(body, "password"), UPDATE_PASSWORD_MIN))
  }

  /** Update never changes a user's id, and changes nothing at all when no optional
      field is valid; repeating an update changes nothing more. */
  lemma UpdatedFrame(u: User, body: Body)
    ensures Updated(u, body).id == u.id
    ensures !UpdateWritesSomething(body) ==> Updated(u, body) == u
    ensures Updated(Updated(u, body), body) == Updated(u, body)
  {
  }

  /** A password whose trimmed length is exactly 3 is accepted by create but silently
      ignored by update. */
  lemma ThreeCharacterPassword(u: User, body: Body)
    requires Field(body, "password").Str? && |Trim(Field(body, "password").s)| == 3
    ensures ValidStr(Field(body, "password"), CREATE_PASSWORD_MIN)
    ensures Updated(u, body).password == u.password
  {
  }

  /** Any password update accepts, create accepts too. */
  lemma UpdatePasswordAcceptedByCreate(v: Value)
    requires ValidStr(v, UPDATE_PASSWORD_MIN)
    ensures ValidStr(v, CREATE_PASSWORD_MIN)
  {
    ValidStrAntitone(v, CREATE_PASSWORD_MIN, UPDATE_PASSWORD_MIN);
  }

  class Controller {
    /** The module-level `users` array. */
    var users: seq<User>

    constructor ()
      ensures users == SeedUsers()
    {
      users := SeedUsers();
    }

    /** GET /api/users: the whole table, passwords included. */
    method Read() returns (reply: Reply<seq<User>>)
      ensures reply.Success? && reply.status == OK
      ensures reply.payload == users
    {
      reply := Success(OK, users);
    }

    /** GET /api/users/:id: `users[id]`, password included; a position past the end
        gives `undefined`, so the body carries no user. */
    method ReadById(id: nat) returns (reply: Reply<Option<User>>)
      ensures reply.Success? && reply.status == OK
      ensures id < |users| ==> reply.payload == Some(users[id])
      ensures |users| <= id ==> reply.payload == None
    {
      if id < |users| {
        reply := Success(OK, Some(users[id]));
      } else {
        reply := Success(OK, None);
      }
    }

    /** POST /api/users: appends a user whose id is the old length, storing all four
        fields, and answers with that user minus the password; any invalid field
        gives BadRequest and no change. */
    method Create(body: Body) returns (reply: Reply<PublicUser>)
      modifies this
      ensures reply.Success? <==> CreateFieldsValid(body)
      ensures reply.Success? ==>
                var u := NewUser(body, old(|users|));
                users == old(users) + [u] && reply == Success(CREATED, WithoutPassword(u))
      ensures reply.BadRequest? ==> users == old(users)
    {
      var firstName := CheckStr(Field(body, "firstName"), 0);
      var lastName := CheckStr(Field(body, "lastName"), 0);
      var email := CheckStr(Field(body, "email"), 0);
      var password := CheckStr(Field(body, "password"), CREATE_PASSWORD_MIN);
      if Truthy(firstName) && Truthy(lastName) && Truthy(email) && Truthy(password) {
        var newUser := User(|users|, firstName.s, lastName.s, email.s, password.s);
        users := users + [newUser];
        var userToReturn := WithoutPassword(newUser);
        reply := Success(CREATED, userToReturn);
      } else {
        reply := BadRequest;
      }
    }

    /** PUT /api/users: with a numeric id, overwrites the supplied valid fields of
        `users[id]` and answers with the updated record; a non-numeric id gives
        BadRequest. The source throws when it writes to a missing record, hence the
        requires; a bad id with nothing to write answers with no record. */
    method Update(body: Body) returns (reply: Reply<Option<User>>)
      requires IsNum(Field(body, "id")) && UpdateWritesSomething(body) ==> IsIndex(Field(body, "id"), |users|)
      modifies this
      ensures !IsNum(Field(body, "id")) ==> reply == BadRequest && users == old(users)
      ensures IsNum(Field(body, "id")) && !IsIndex(Field(body, "id"), |old(users)|) ==>
                reply == Success(OK, None) && users == old(users)
      ensures IsIndex(Field(body, "id"), |old(users)|) ==>
                var i := Index(Field(body, "id"), |old(users)|);
                users == old(users)[i := Updated(old(users)[i], body)]
                && reply == Success(OK, Some(users[i]))
    {
      var id := CheckNum(Field(body, "id"));
      var firstName := CheckStr(Field(body, "firstName"), 0);
      var lastName := CheckStr(Field(body, "lastName"), 0);
      var email := CheckStr(Field(body, "email"), 0);
      var password := CheckStr(Field(body, "password"), UPDATE_PASSWORD_MIN);
      if Given(id) {
        // `users[id]` is looked up only when a field is written: that is where the
        // source throws for a missing record.
        if Truthy(firstName) || Truthy(lastName) || Truthy(email) || Truthy(password) {
          var i := Index(id, |users|);
          var user := users[i];
          if Truthy(firstName) {
            user := user.(firstName := firstName.s);
          }
          if Truthy(lastName) {
            user := user.(lastName := lastName.s);
          }
          if Truthy(email) {
            user := user.(email := email.s);
          }
          if Truthy(password) {
            user := user.(password := password.s);
          }
          users := users[i := user];
        }
        reply := Success(OK, Element(users, id));
      } else {
        reply := BadRequest;
      }
    }

    /** DELETE /api/users: `users.splice(id, 1)` for a numeric id; a whole id inside the
        table removes exactly that user and moves every later user down one place. */
    method Delete(body: Body) returns (reply: Reply<()>)
      modifies this
      ensures !IsNum(Field(body, "id")) ==> reply == BadRequest && users == old(users)
      ensures IsNum(Field(body, "id")) ==>
                reply == Success(OK, ()) && users == SpliceOne(old(users), Field(body, "id").x)
      ensures IsIndex(Field(body, "id"), |old(users)|) ==>
                users == RemoveAt(old(users), Index(Field(body, "id"), |old(users)|))
    {
      var id := CheckNum(Field(body, "id"));
      if Given(id) {
        if IsIndex(id, |users|) {
          SpliceOneAtIndex(users, Index(id, |users|));
        }
        users := SpliceOne(users, id.x);
        reply := Success(OK, ());
      } else {
        reply := BadRequest;
      }
    }
  }

  /** The seeded table holds two users, so the next user created gets id 2, and the
      reply leaves the password out. */
  method CreateAfterSeed() returns (reply: Reply<PublicUser>)
    ensures reply == Success(CREATED, PublicUser(2, "A", "B", "a@b.com"))
  {
    var c := new Controller();
    var body := map["firstName" := Str("A"), "lastName" := Str("B"),
                    "email" := Str("a@b.com"), "password" := Str("xyz")];
    assert Field(body, "firstName") == Str("A") && Field(body, "lastName") == Str("B");
    assert Field(body, "email") == Str("a@b.com") && Field(body, "password") == Str("xyz");
    SeedScenarioNamesValid(body);
    SeedScenarioLoginValid(body);
    reply := c.Create(body);
  }

  /** The scenario's first and last name pass create's checks. */
  lemma SeedScenarioNamesValid(body: Body)
    requires Field(body, "firstName") == Str("A") && Field(body, "lastName") == Str("B")
    ensures ValidStr(Field(body, "firstName"), 0) && ValidStr(Field(body, "lastName"), 0)
  {
    TrimOfSolid("A");
    TrimOfSolid("B");
  }

  /** The scenario's email and password pass create's checks. */
  lemma SeedScenarioLoginValid(body: Body)
    requires Field(body, "email") == Str("a@b.com") && Field(body, "password") == Str("xyz")
    ensures ValidStr(Field(body, "email"), 0) && ValidStr(Field(body, "password"), CREATE_PASSWORD_MIN)
  {
    TrimOfSolid("a@b.com");
    TrimOfSolid("xyz");
  }
}
