/** Users: the user table with its unique email, and UserService's create, read,
    update and delete. */
module Users {
  import opened Common
  import opened Text
  import opened Validation
  import opened ValidUuid
  import opened Tables

  /** The stored columns of one user, the key aside. */
  datatype UserRecord = UserRecord(name: string, email: string)

  /** The user entity: the name is fixed at construction, the email can be updated. */
  class User {
    const id: Id
    const name: string
    var email: string

    constructor (id: Id, name: string, email: string)
      ensures this.id == id && this.name == name && this.email == email
    {
      this.id := id;
      this.name := name;
      this.email := email;
    }

    function Record(): UserRecord
      reads this
    {
      UserRecord(name, email)
    }

    /** User.update: the email is replaced; id and name are constants. */
    method Update(email: string)
      modifies this
      ensures this.email == email
    {
      this.email := email;
    }
  }

  datatype NewUserRequest = NewUserRequest(email: string, name: string)
  datatype UpdateUserRequest = UpdateUserRequest(email: string)

  /** The three branches of ReadUserRequest's `consulta` case. */
  datatype UserQuery = ByEmail(email: string) | ByName(name: string) | NotSet

  const EmailFilterMissing := "Email must be informed for a filter"
  const NameFilterMissing := "Name must be informed for a filter"

  function EmailExists(email: string): string {
    "User already exists with email " + email
  }

  function UserNotFound(id: string): string {
    "User not found with id " + id
  }

  /** The column the user_email_uk unique constraint covers. */
  function EmailOf(r: UserRecord): string {
    r.email
  }

  /** The violations @Valid reports for a NewUserRequest. */
  function NewUserViolations(request: NewUserRequest): (v: set<Violation>)
    ensures v == {} <==> !IsBlank(request.email) && IsEmail(request.email) && !IsBlank(request.name)
  {
    NotBlank("email", request.email) + Email("email", request.email) + NotBlank("name", request.name)
  }

  /** The violations reported for UserService.update's request and id arguments. */
  function UpdateViolations(request: UpdateUserRequest, id: string): (v: set<Violation>)
    ensures v == {} <==> !IsBlank(request.email) && IsEmail(request.email) && IsUuid(id)
  {
    NotBlank("email", request.email) + Email("email", request.email) + IdViolations("id", id)
  }

  /** An empty update request reports exactly the four violations the endpoint test lists. */
  lemma EmptyUpdateViolations()
    ensures UpdateViolations(UpdateUserRequest(""), "") ==
      {Violation("id", PatternMessage), Violation("id", MustNotBeBlank),
       Violation("email", MustNotBeBlank), Violation("email", MustBeEmail)}
  {
    BlankIdHasTwoViolations("id", "");
  }

  predicate Matches(q: UserQuery, r: UserRecord) {
    match q
    case ByEmail(email) => r.email == email
    case ByName(name) => r.name == name
    case NotSet => true
  }

  /** UserService.read: a blank email or name filter is refused; otherwise the users
      whose email (or name) equals the filter, or every user when no filter is set. */
  function Query(q: UserQuery, rows: map<Id, UserRecord>): (r: Result<map<Id, UserRecord>>)
    ensures r.Failure? <==> (q.ByEmail? && IsKotlinBlank(q.email)) || (q.ByName? && IsKotlinBlank(q.name))
    ensures r.Failure? ==> r.error == Invalid(if q.ByEmail? then EmailFilterMissing else NameFilterMissing)
    ensures r.Success? ==> r.value.Keys <= rows.Keys
    ensures r.Success? ==> forall k :: k in rows ==> (k in r.value <==> Matches(q, rows[k]))
    ensures r.Success? ==> forall k :: k in r.value ==> r.value[k] == rows[k]
  {
    if q.ByEmail? && IsKotlinBlank(q.email) then Failure(Invalid(EmailFilterMissing))
    else if q.ByName? && IsKotlinBlank(q.name) then Failure(Invalid(NameFilterMissing))
    else Success(map k | k in rows && Matches(q, rows[k]) :: rows[k])
  }

  /** Because emails are unique, an email filter finds at most one user. */
  lemma QueryByEmailFindsAtMostOne(rows: map<Id, UserRecord>, email: string)
    requires Unique(rows, EmailOf) && !IsKotlinBlank(email)
    ensures |Query(ByEmail(email), rows).value| <= 1
  {
    var found := Query(ByEmail(email), rows).value;
    if k :| k in found {
      assert found.Keys == {k} by {
        forall j | j in found ensures j == k {
          assert rows[j].email == email && rows[k].email == email;
        }
      }
      assert |found| == |found.Keys|;
    }
  }

  /** With no filter set, every user is returned. */
  lemma QueryNotSetReturnsAll(rows: map<Id, UserRecord>)
    ensures Query(NotSet, rows) == Success(rows)
  {
    var r := Query(NotSet, rows).value;
    assert forall k :: k in rows ==> Matches(NotSet, rows[k]);
    assert forall k :: k in rows ==> k in r && r[k] == rows[k];
    assert r == rows;
  }

  /** The user table and UserService's operations on it. */
  class UserService {
    var users: map<Id, User>

    constructor ()
      ensures users == map[] && Valid()
    {
      users := map[];
    }

    /** The table as values: each stored user's columns by key. */
    function Rows(): map<Id, UserRecord>
      reads this, users.Values
    {
      map k | k in users :: users[k].Record()
    }

    ghost predicate Valid()
      reads this, users.Values
    {
      (forall k :: k in users ==> users[k].id == k) && Unique(Rows(), EmailOf)
    }

    /** UserService.create: validation, then the email check, then one new row. */
    method Create(request: NewUserRequest, newId: Id) returns (r: Result<User>)
      requires Valid() && newId !in users
      modifies this
      ensures Valid()
      ensures NewUserViolations(request) != {} ==>
        r == Failure(ConstraintViolations(NewUserViolations(request)))
      ensures NewUserViolations(request) == {} && InUse(old(Rows()), EmailOf, request.email) ==>
        r == Failure(AlreadyExists(EmailExists(request.email)))
      ensures r.Failure? ==> users == old(users) && Rows() == old(Rows())
      ensures NewUserViolations(request) == {} && !InUse(old(Rows()), EmailOf, request.email) ==>
        && r.Success? && fresh(r.value) && r.value.id == newId
        && users == old(users)[newId := r.value]
        && Rows() == old(Rows())[newId := UserRecord(request.name, request.email)]
    {
      var v := NewUserViolations(request);
      if v != {} {
        return Failure(ConstraintViolations(v));
      }
      if InUse(Rows(), EmailOf, request.email) {
        return Failure(AlreadyExists(EmailExists(request.email)));
      }
      ghost var before := Rows();
      var user := new User(newId, request.name, request.email);
      assert Rows() == before;
      Insert(user);
      r := Success(user);
    }

    /** save: the new user is filed under its id and nothing else changes. */
    method Insert(user: User)
      requires Valid() && user.id !in users && user !in users.Values
      requires !InUse(Rows(), EmailOf, user.email)
      modifies this
      ensures Valid()
      ensures users == old(users)[user.id := user]
      ensures Rows() == old(Rows())[user.id := user.Record()]
    {
      ghost var before := Rows();
      users := users[user.id := user];
      assert Rows() == before[user.id := user.Record()];
      assert before - {user.id} == before;
      StoreKeepsUnique(before, EmailOf, user.id, user.Record());
    }

    /** UserService.update: validation, then the email check, then the id lookup;
        the found user gets the new email. */
    method Update(request: UpdateUserRequest, id: string) returns (r: Result<User>)
      requires Valid()
      modifies users.Values
      ensures Valid() && users == old(users)
      ensures UpdateViolations(request, id) != {} ==>
        r == Failure(ConstraintViolations(UpdateViolations(request, id)))
      ensures UpdateViolations(request, id) == {} && InUse(old(Rows()), EmailOf, request.email) ==>
        r == Failure(AlreadyExists(EmailExists(request.email)))
      ensures UpdateViolations(request, id) == {} && !InUse(old(Rows()), EmailOf, request.email)
              && id !in users ==>
        r == Failure(NotFound(UserNotFound(id)))
      ensures r.Failure? ==> Rows() == old(Rows())
      ensures UpdateViolations(request, id) == {} && !InUse(old(Rows()), EmailOf, request.email)
              && id in users ==>
        && r == Success(users[id])
        && Rows() == old(Rows())[id := UserRecord(old(Rows())[id].name, request.email)]
    {
      var v := UpdateViolations(request, id);
      if v != {} {
        return Failure(ConstraintViolations(v));
      }
      if InUse(Rows(), EmailOf, request.email) {
        return Failure(AlreadyExists(EmailExists(request.email)));
      }
      if id !in users {
        return Failure(NotFound(UserNotFound(id)));
      }
      ghost var before := Rows();
      var user := users[id];
      user.Update(request.email);
      assert Rows() == before[id := user.Record()] by {
        forall k | k in users && k != id ensures users[k] != user {
          assert users[k].id == k;
        }
      }
      NotInUseWithout(before, EmailOf, id, request.email);
      StoreKeepsUnique(before, EmailOf, id, user.Record());
      r := Success(user);
    }

    /** UserService.delete: validation, then the id lookup; the row is removed and the
        deleted user returned. */
    method Delete(id: string) returns (r: Result<User>)
      requires Valid()
      modifies this
      ensures Valid()
      ensures IdViolations("id", id) != {} ==> r == Failure(ConstraintViolations(IdViolations("id", id)))
      ensures IdViolations("id", id) == {} && id !in old(users) ==> r == Failure(NotFound(UserNotFound(id)))
      ensures r.Failure? ==> users == old(users) && Rows() == old(Rows())
      ensures IdViolations("id", id) == {} && id in old(users) ==>
        && r == Success(old(users)[id])
        && users == old(users) - {id}
        && Rows() == old(Rows()) - {id}
    {
      var v := IdViolations("id", id);
      if v != {} {
        return Failure(ConstraintViolations(v));
      }
      if id !in users {
        return Failure(NotFound(UserNotFound(id)));
      }
      ghost var before := Rows();
      var user := users[id];
      users := users - {id};
      assert Rows() == before - {id};
      RemoveKeepsUnique(before, EmailOf, id);
      r := Success(user);
    }
  }
}
