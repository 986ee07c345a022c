/** Account registration (app/api/auth/register/route.ts): required fields, a loose
    email check, a duplicate check on username or email, then the insert of the
    trimmed fields with the password replaced by its hash. `hash` stands for
    `bcrypt.hash(password, 10)`. */
module Register {
  import opened Wrappers
  import opened Strings
  import opened Schema
  import opened Db
  import opened Query

  /** The fields of a registration request. */
  datatype RegisterRequest = RegisterRequest(
    name: Option<string>, username: Option<string>, email: Option<string>, password: Option<string>)

  /** A field JavaScript treats as present: neither absent nor empty. */
  predicate Given(field: Option<string>) {
    field.Some? && field.value != ""
  }

  /** `${email}` in the duplicate filter: an absent email is the text `undefined`. */
  function EmailFilterText(email: Option<string>): (t: string)
    ensures email.Some? ==> t == email.value
    ensures email.None? ==> t == "undefined"
  {
    if email.Some? then email.value else "undefined"
  }

  /** The filter `username.eq.<username>, email.eq.<email>`, on the values as sent. */
  function SameAccount(username: string, email: Option<string>): User -> bool {
    (u: User) => u.username == username || u.email == Some(EmailFilterText(email))
  }

  /** The input checks, in order; `None` when the request may proceed to the
      duplicate check. */
  function CheckInput(req: RegisterRequest): (failure: Option<Reply>)
    ensures !(Given(req.name) && Given(req.username) && Given(req.password)) ==>
      failure == Some(Failure(400, "Missing required fields"))
    ensures Given(req.name) && Given(req.username) && Given(req.password) ==>
      (failure.Some? <==> Given(req.email) && '@' !in req.email.value)
    ensures failure.Some? ==> failure.value.status == 400
  {
    if !(Given(req.name) && Given(req.username) && Given(req.password)) then
      Some(Failure(400, "Missing required fields"))
    else if Given(req.email) && '@' !in req.email.value then
      Some(Failure(400, "Invalid email address"))
    else None
  }

  /** `email?.trim() || null`. */
  function StoredEmail(email: Option<string>): (e: Option<string>)
    ensures e.Some? ==> email.Some? && e.value == Trim(email.value) && e.value != ""
    ensures e.None? <==> email.None? || Trim(email.value) == ""
  {
    if email.None? || Trim(email.value) == "" then None else Some(Trim(email.value))
  }

  /** The `users` row the insert writes: trimmed name and username, the stored email,
      and the hash in place of the password. */
  function NewUser(req: RegisterRequest, hash: string -> string): (u: User)
    requires req.name.Some? && req.username.Some? && req.password.Some?
    ensures u.name == Trim(req.name.value) && u.username == Trim(req.username.value)
    ensures u.email == StoredEmail(req.email) && u.passwordHash == hash(req.password.value)
    ensures Trimmed(u.name) && Trimmed(u.username)
  {
    User(Trim(req.name.value), Trim(req.username.value), StoredEmail(req.email), hash(req.password.value))
  }

  /** POST: register an account. `lookupFails` is an error of the duplicate lookup,
      which the code ignores; `insertError` is the insert's failure, if it fails. */
  method RegisterUser(db: Store, req: RegisterRequest, hash: string -> string,
                      lookupFails: bool, insertError: Option<string>)
    returns (r: Reply)
    modifies db`users
    ensures r.status != 201 ==> db.users == old(db.users)
    ensures CheckInput(req).Some? ==> r == CheckInput(req).value
    ensures CheckInput(req).None? ==>
      var duplicate := !lookupFails && Single(old(db.users), SameAccount(req.username.value, req.email)).Some?;
      if duplicate then r == Failure(400, "User already exists")
      else if insertError.Some? then r == Failure(500, insertError.value)
      else
        r == Success(201, Some(Created(|old(db.users)|)), "Register successful")
        && db.users == old(db.users) + [NewUser(req, hash)]
  {
    var failure := CheckInput(req);
    if failure.Some? {
      return failure.value;
    }
    var existing := if lookupFails then None else Single(db.users, SameAccount(req.username.value, req.email));
    if existing.Some? {
      return Failure(400, "User already exists");
    }
    if insertError.Some? {
      return Failure(500, insertError.value);
    }
    r := Success(201, Some(Created(|db.users|)), "Register successful");
    db.users := db.users + [NewUser(req, hash)];
  }

  /** The duplicate check compares the username as sent, the insert stores it
      trimmed: any username sent with surrounding whitespace passes the check against
      accounts holding its trimmed form (and not the email), and is stored as a further
      copy of that username. */
  lemma UntrimmedUsernamePassesCheck(users: seq<User>, req: RegisterRequest, hash: string -> string)
    requires req.name.Some? && req.username.Some? && req.password.Some?
    requires Trim(req.username.value) != req.username.value
    requires forall k :: 0 <= k < |users| ==>
      users[k].username == Trim(req.username.value) && users[k].email != Some(EmailFilterText(req.email))
    ensures Single(users, SameAccount(req.username.value, req.email)).None?
    ensures NewUser(req, hash).username == Trim(req.username.value)
  {
    forall k | 0 <= k < |users| ensures !SameAccount(req.username.value, req.email)(users[k]) {
    }
  }

  /** Two different accounts matching the filter (one by username, one by email)
      make `.maybeSingle()` find nothing, so the request is not turned away as a
      duplicate. */
  lemma TwoMatchesPassCheck(users: seq<User>, username: string, email: Option<string>, i: nat, j: nat)
    requires i < j < |users|
    requires users[i].username == username
    requires users[j].email == Some(EmailFilterText(email))
    ensures Single(users, SameAccount(username, email)).None?
  {
    SingleMissesDuplicates(users, SameAccount(username, email), i, j);
  }
}
