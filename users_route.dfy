/** `/api/users`: the profile upsert keyed by email with its default and
    overwrite rules, the mapping of thrown errors to status codes, and the two
    forms of `GET`. */
module UsersRoute {
  import opened Util
  import opened Profiles

  /** The parsed JSON body of `POST`; absent fields are `None`. */
  datatype PostBody = PostBody(
    email: Option<string>,
    firstName: Option<string>,
    lastName: Option<string>,
    phoneNumber: Option<string>,
    restaurantId: Option<string>,
    role: Option<Role>)

  /** A value thrown inside the handler: an `Error` object, with its message
      and its `code` property, or anything else. */
  datatype Thrown = ErrorObject(message: string, code: Option<string>) | NonError

  /** The request as the handler sees it: a body, or the error the JSON parse throws. */
  datatype Request = Parsed(body: PostBody) | Unparsable(error: Thrown)

  datatype PostResponse =
    | Created(user: User)
    | Failure(status: int, error: string, details: Option<string>, hint: Option<string>)

  const RequiredFieldsError := "email, firstName, and lastName are required."
  const DuplicateError := "An account with this email already exists."
  const ConnectionError := "Database connection error"
  const PausedDetails := "Your Supabase database may be paused. Please check your Supabase dashboard and ensure the database is active."
  const UnreachableDetails := "Unable to connect to the database server. Please verify your DATABASE_URL is correct and the database is accessible."
  const PausedHint := "If using Supabase free tier, your database may have paused. Check your Supabase dashboard to resume it."
  const CreateFailedError := "Failed to create user profile"

  predicate MissingRequired(b: PostBody) {
    !Present(b.email) || !Present(b.firstName) || !Present(b.lastName)
  }

  // ---------------------------------------------------------------------------
  // upsert

  /** The first row whose email is exactly `email`, or -1. */
  function EmailIndex(users: seq<User>, email: string): (i: int)
    ensures -1 <= i < |users|
    ensures i == -1 <==> forall j :: 0 <= j < |users| ==> users[j].email != email
    ensures i >= 0 ==> users[i].email == email && forall j :: 0 <= j < i ==> users[j].email != email
  {
    if users == [] then -1
    else if users[0].email == email then 0
    else
      var r := EmailIndex(users[1..], email);
      if r == -1 then -1 else r + 1
  }

  /** The first row with an email is the only candidate `EmailIndex` returns. */
  lemma EmailIndexAt(users: seq<User>, email: string, i: nat)
    requires i < |users| && users[i].email == email
    requires forall j :: 0 <= j < i ==> users[j].email != email
    ensures EmailIndex(users, email) == i
  {
  }

  /** The `update` branch: names replaced, an absent phone number or
      restaurant stored as null, and the role replaced only when one is given. */
  function UpdatedRow(u: User, b: PostBody): User
    requires !MissingRequired(b)
  {
    u.(firstName := b.firstName.value, lastName := b.lastName.value,
       phoneNumber := b.phoneNumber, restaurantId := b.restaurantId,
       role := if b.role.Some? then b.role.value else u.role)
  }

  /** The `create` branch; the database supplies `id`. */
  function CreatedRow(id: string, b: PostBody): User
    requires !MissingRequired(b)
  {
    User(id, b.email.value, b.firstName.value, b.lastName.value, b.phoneNumber,
         if b.role.Some? then b.role.value else USER, b.restaurantId)
  }

  /** `prisma.user.upsert({ where: { email } ... })` on the User table. */
  function Upsert(users: seq<User>, b: PostBody, freshId: string): (r: seq<User>)
    requires !MissingRequired(b)
  {
    var i := EmailIndex(users, b.email.value);
    if i >= 0 then users[i := UpdatedRow(users[i], b)] else users + [CreatedRow(freshId, b)]
  }

  /** After an upsert on a table with unique emails the emails stay unique;
      exactly one row has the body's email, with the body's names, phone
      number and restaurant (null when absent); every other row is untouched. */
  lemma UpsertStoresOneProfile(users: seq<User>, b: PostBody, freshId: string)
    requires UniqueEmails(users)
    requires !MissingRequired(b)
    ensures var r := Upsert(users, b, freshId);
      && UniqueEmails(r)
      && (exists i :: 0 <= i < |r| && r[i].email == b.email.value)
      && (forall i :: 0 <= i < |r| && r[i].email == b.email.value ==>
            && r[i].firstName == b.firstName.value && r[i].lastName == b.lastName.value
            && r[i].phoneNumber == b.phoneNumber && r[i].restaurantId == b.restaurantId)
      && (forall i :: 0 <= i < |users| && users[i].email != b.email.value ==> r[i] == users[i])
  {
    var r := Upsert(users, b, freshId);
    var i := EmailIndex(users, b.email.value);
    if i >= 0 {
      assert r[i].email == b.email.value;
    } else {
      assert r[|users|].email == b.email.value;
    }
  }

  /** A new profile gets role USER unless the body names one; an existing
      profile keeps its role and its identifier unless the body names a role. */
  lemma UpsertRoleRules(users: seq<User>, b: PostBody, freshId: string)
    requires !MissingRequired(b)
    ensures var r := Upsert(users, b, freshId);
      var i := EmailIndex(users, b.email.value);
      && (i == -1 ==> r == users + [CreatedRow(freshId, b)]
                      && r[|users|].role == (if b.role.Some? then b.role.value else USER))
      && (i >= 0 ==> |r| == |users| && r[i].id == users[i].id
                     && r[i].role == (if b.role.Some? then b.role.value else users[i].role))
  {
  }

  /** Posting the same body twice leaves the table as the first post left it. */
  lemma UpsertIdempotent(users: seq<User>, b: PostBody, id1: string, id2: string)
    requires !MissingRequired(b)
    ensures Upsert(Upsert(users, b, id1), b, id2) == Upsert(users, b, id1)
  {
    var e := b.email.value;
    var r := Upsert(users, b, id1);
    var i := EmailIndex(users, e);
    if i >= 0 {
      EmailIndexAt(r, e, i);
    } else {
      EmailIndexAt(r, e, |users|);
    }
  }

  // ---------------------------------------------------------------------------
  // error mapping

  predicate IsUniqueViolation(t: Thrown) {
    t.ErrorObject? && (Contains(t.message, "Unique constraint") || Contains(t.message, "Unique violation"))
  }

  predicate IsConnectionFailure(t: Thrown) {
    && t.ErrorObject?
    && (|| Contains(t.message, "connection")
        || Contains(t.message, "timeout")
        || Contains(t.message, "Can't reach database")
        || Contains(t.message, "Accelerate was not able to connect")
        || Contains(t.message, "P6008")
        || t.code == Some("P5000"))
  }

  /** The `catch` block of `POST`. */
  function ClassifyError(t: Thrown): (r: PostResponse)
    ensures r.Failure?
    ensures r.status == 409 <==> IsUniqueViolation(t)
    ensures r.status == 503 <==> !IsUniqueViolation(t) && IsConnectionFailure(t)
    ensures r.status == 500 <==> !IsUniqueViolation(t) && !IsConnectionFailure(t)
    ensures r.status == 409 ==> r == Failure(409, DuplicateError, None, None)
    ensures r.status == 503 ==> r.error == ConnectionError && r.hint == Some(PausedHint)
    ensures r.status == 503 ==>
      r.details == Some(if Contains(t.message, "Can't reach database") then PausedDetails else UnreachableDetails)
    ensures r.status == 500 ==> r.error == CreateFailedError && r.hint.None?
    ensures r.status == 500 && t.ErrorObject? ==> r.details == Some(t.message)
    ensures t.NonError? ==> r == Failure(500, CreateFailedError, Some("Unknown error"), None)
  {
    if IsUniqueViolation(t) then Failure(409, DuplicateError, None, None)
    else if IsConnectionFailure(t) then
      Failure(503, ConnectionError,
              Some(if Contains(t.message, "Can't reach database") then PausedDetails else UnreachableDetails),
              Some(PausedHint))
    else Failure(500, CreateFailedError, Some(if t.ErrorObject? then t.message else "Unknown error"), None)
  }

  /** A duplicate-key error from the database becomes 409, wherever the
      message mentions the unique constraint and whatever its code. */
  lemma DuplicateKeyIsConflict(before: string, after: string, code: Option<string>)
    ensures ClassifyError(ErrorObject(before + "Unique constraint" + after, code))
         == Failure(409, DuplicateError, None, None)
  {
    ContainsInfix(before, "Unique constraint", after);
  }

  /** A message that says the database cannot be reached becomes 503 with
      the paused-database details and hint, unless it also reads as a unique
      violation, which is tested first. */
  lemma UnreachableDatabaseIsUnavailable(m: string, code: Option<string>)
    requires Contains(m, "Can't reach database")
    requires !Contains(m, "Unique constraint") && !Contains(m, "Unique violation")
    ensures ClassifyError(ErrorObject(m, code)) == Failure(503, ConnectionError, Some(PausedDetails), Some(PausedHint))
  {
  }

  /** An error object with `code` P5000 becomes 503 whatever its message,
      unless the message reads as a unique violation. */
  lemma AccelerateCodeIsUnavailable(m: string)
    requires !Contains(m, "Unique constraint") && !Contains(m, "Unique violation")
    ensures ClassifyError(ErrorObject(m, Some("P5000"))).status == 503
    ensures ClassifyError(ErrorObject(m, Some("P5000"))).hint == Some(PausedHint)
  {
  }

  // ---------------------------------------------------------------------------
  // GET

  /** Code-point lexicographic order on strings, `a` before or equal to `b`. */
  predicate StrLeq(a: string, b: string)
    decreases |a|
  {
    a == [] || (b != [] && (a[0] < b[0] || (a[0] == b[0] && StrLeq(a[1..], b[1..]))))
  }

  lemma {:induction false} StrLeqTotal(a: string, b: string)
    ensures StrLeq(a, b) || StrLeq(b, a)
    decreases |a|
  {
    if a != [] && b != [] && a[0] == b[0] {
      StrLeqTotal(a[1..], b[1..]);
    }
  }

  /** `orderBy: [{ firstName: 'asc' }, { lastName: 'asc' }]`. */
  predicate NameLeq(a: User, b: User) {
    if a.firstName != b.firstName then StrLeq(a.firstName, b.firstName) else StrLeq(a.lastName, b.lastName)
  }

  lemma NameLeqTotal(a: User, b: User)
    ensures NameLeq(a, b) || NameLeq(b, a)
  {
    StrLeqTotal(a.firstName, b.firstName);
    StrLeqTotal(a.lastName, b.lastName);
  }

  ghost predicate SortedByName(s: seq<User>) {
    forall i :: 0 < i < |s| ==> NameLeq(s[i - 1], s[i])
  }

  function InsertByName(u: User, s: seq<User>): (r: seq<User>)
    requires SortedByName(s)
    ensures multiset(r) == multiset(s) + multiset{u}
    ensures SortedByName(r)
    ensures r[0] == u || (s != [] && r[0] == s[0])
  {
    if s == [] then [u]
    else if NameLeq(u, s[0]) then [u] + s
    else
      NameLeqTotal(u, s[0]);
      var rest := InsertByName(u, s[1..]);
      assert s == [s[0]] + s[1..];
      [s[0]] + rest
  }

  /** The listing of all profiles, ordered by first name, then last name. */
  function SortByName(users: seq<User>): (r: seq<User>)
    ensures multiset(r) == multiset(users)
    ensures SortedByName(r)
  {
    if users == [] then []
    else
      assert users == [users[0]] + users[1..];
      InsertByName(users[0], SortByName(users[1..]))
  }

  datatype GetResponse =
    | FoundUser(user: User)
    | NotFound
    | AllUsers(users: seq<User>)
    | LoadFailed

  /** `GET`; `email` is the query parameter and `fails` says whether the
      database call throws. */
  function Get(users: seq<User>, email: Option<string>, fails: bool): (r: GetResponse)
    ensures fails <==> r == LoadFailed
    ensures !fails && !Present(email) ==> r.AllUsers?
    ensures !fails && Present(email) ==> r.FoundUser? || r.NotFound?
    ensures !fails && Present(email) ==>
      (r.NotFound? <==> forall u :: u in users ==> u.email != email.value)
    ensures r.FoundUser? ==> email.Some? && r.user in users && r.user.email == email.value
    ensures r.AllUsers? ==> !Present(email) && multiset(r.users) == multiset(users) && SortedByName(r.users)
  {
    if fails then LoadFailed
    else if Present(email) then
      match FindByEmail(users, email.value)
      case None => NotFound
      case Some(u) => FoundUser(u)
    else AllUsers(SortByName(users))
  }

  function GetStatus(r: GetResponse): int {
    match r
    case FoundUser(_) => 200
    case NotFound => 404
    case AllUsers(_) => 200
    case LoadFailed => 500
  }

  /** The User table the route reads and writes. */
  class UserTable {
    var users: seq<User>

    ghost predicate Valid()
      reads this
    {
      UniqueEmails(users)
    }

    constructor (users0: seq<User>)
      requires UniqueEmails(users0)
      ensures Valid() && users == users0
    {
      users := users0;
    }

    /** `POST`. `fault` is the error the upsert throws, if any; `freshId` is
        the identifier the database gives a new row. Any email string is
        accepted: no domain check happens here. */
    method Post(request: Request, fault: Option<Thrown>, freshId: string) returns (resp: PostResponse)
      requires Valid()
      modifies this
      ensures Valid()
      ensures resp.Created? <==> request.Parsed? && !MissingRequired(request.body) && fault.None?
      ensures resp.Created? ==>
        && users == Upsert(old(users), request.body, freshId)
        && resp.user.email == request.body.email.value
        && resp.user in users
      ensures !resp.Created? ==> users == old(users)
      ensures request.Parsed? && MissingRequired(request.body) ==>
        resp == Failure(400, RequiredFieldsError, None, None)
      ensures request.Unparsable? ==> resp == ClassifyError(request.error)
      ensures request.Parsed? && !MissingRequired(request.body) && fault.Some? ==>
        resp == ClassifyError(fault.value)
    {
      if request.Unparsable? {
        return ClassifyError(request.error);
      }
      var b := request.body;
      if MissingRequired(b) {
        return Failure(400, RequiredFieldsError, None, None);
      }
      if fault.Some? {
        return ClassifyError(fault.value);
      }
      UpsertStoresOneProfile(users, b, freshId);
      var i := EmailIndex(users, b.email.value);
      users := Upsert(users, b, freshId);
      var user := if i >= 0 then users[i] else users[|users| - 1];
      resp := Created(user);
    }
  }
}
