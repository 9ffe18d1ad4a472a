/** The user router: registration guarded by unique usernames and emails, and lookups. */
module Users {
  import opened Common
  import opened Models
  import opened Database

  const UsernameTakenDetail := "Username already registered"
  const EmailTakenDetail := "Email already registered"
  const UserNotFoundDetail := "User not found"

  predicate UsernameTaken(users: seq<User>, username: string) {
    exists i :: 0 <= i < |users| && users[i].username == username
  }

  predicate EmailTaken(users: seq<User>, email: string) {
    exists i :: 0 <= i < |users| && users[i].email == email
  }

  /** A new user whose username and email are both unused keeps the accounts distinct. */
  lemma RegistrationKeepsAccountsDistinct(users: seq<User>, user: User)
    requires DistinctAccounts(users)
    requires !UsernameTaken(users, user.username) && !EmailTaken(users, user.email)
    ensures DistinctAccounts(users + [user])
  {
    var s := users + [user];
    forall i, j | 0 <= i < j < |s|
      ensures s[i].username != s[j].username && s[i].email != s[j].email
    {
      if j == |users| {
        assert s[i] == users[i];
      }
    }
  }

  /** POST /users: the username is checked first, then the email; only a request passing both adds a row,
      numbered after the last one, active, and holding the hash of the password (never the password). */
  method CreateUser(db: Db, username: string, email: string, password: string, hash: string -> string)
    returns (r: Result<User>)
    requires db.Valid()
    modifies db
    ensures db.Valid()
    ensures db.bots == old(db.bots) && db.trades == old(db.trades) && db.portfolio == old(db.portfolio)
    ensures db.markets == old(db.markets) && db.scheduled == old(db.scheduled)
    ensures UsernameTaken(old(db.users), username) ==>
      r == Err(BadRequest(UsernameTakenDetail)) && db.users == old(db.users)
    ensures !UsernameTaken(old(db.users), username) && EmailTaken(old(db.users), email) ==>
      r == Err(BadRequest(EmailTakenDetail)) && db.users == old(db.users)
    ensures !UsernameTaken(old(db.users), username) && !EmailTaken(old(db.users), email) ==>
      && r == Ok(User(|old(db.users)| + 1, username, email, hash(password), true))
      && db.users == old(db.users) + [r.value]
  {
    if UsernameTaken(db.users, username) {
      return Err(BadRequest(UsernameTakenDetail));
    }
    if EmailTaken(db.users, email) {
      return Err(BadRequest(EmailTakenDetail));
    }
    var user := User(|db.users| + 1, username, email, hash(password), true);
    RegistrationKeepsAccountsDistinct(db.users, user);
    db.users := db.users + [user];
    r := Ok(user);
  }

  /** GET /users/{id}: not found exactly when no user has that id. */
  function ReadUser(users: seq<User>, id: nat): (r: Result<User>)
    ensures r.Err? <==> forall i :: 0 <= i < |users| ==> users[i].id != id
    ensures r.Err? ==> r.error == NotFound(UserNotFoundDetail)
    ensures r.Ok? ==> r.value in users && r.value.id == id
  {
    match FindFirst(users, (u: User) => u.id == id)
    case None => Err(NotFound(UserNotFoundDetail))
    case Some(i) => Ok(users[i])
  }

  /** With ids given in insertion order, exactly the ids 1..n are found, each at its own row; so the user a
      registration returns is the one a later lookup of its id returns. */
  lemma ReadUserDense(users: seq<User>, id: nat)
    requires DenseUserIds(users)
    ensures ReadUser(users, id).Ok? <==> 1 <= id <= |users|
    ensures ReadUser(users, id).Ok? ==> ReadUser(users, id).value == users[id - 1]
  {
    if 1 <= id <= |users| {
      assert users[id - 1].id == id;
    }
  }

  /** GET /users: the users from position `skip` on, at most `limit` of them, short only at the table's end. */
  function ReadUsers(users: seq<User>, skip: nat, limit: nat): (r: seq<User>)
    ensures |r| <= limit
    ensures |r| > 0 ==> skip + |r| <= |users|
    ensures forall i :: 0 <= i < |r| ==> r[i] == users[skip + i]
    ensures |r| < limit ==> skip + |r| >= |users|
  {
    Paginate(users, skip, limit)
  }
}
