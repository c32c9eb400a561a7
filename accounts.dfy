/**
 * Registration (`registerUser`): the schema rules on the submitted fields,
 * the duplicate checks, and the insert of a user with a hashed password.
 */
module Accounts {
  import opened Wrappers
  import opened Store

  predicate UsernameChar(c: char)
  {
    'a' <= c <= 'z' || 'A' <= c <= 'Z' || '0' <= c <= '9' || c == '_'
  }

  /** `/^[a-zA-Z0-9_]+$/`. */
  predicate UsernamePattern(s: string)
  {
    s != [] && forall i :: 0 <= i < |s| ==> UsernameChar(s[i])
  }

  /**
   * The first issue the schema reports: fields in declaration order, and for
   * the username its checks in order (minimum, maximum, pattern). Whether the
   * address is well formed is decided by the schema library and is an input.
   */
  function FirstIssue(name: string, username: string, emailValid: bool, password: string): (issue: Option<string>)
    ensures issue.None? <==>
      |name| >= 2 && 3 <= |username| <= 30 && UsernamePattern(username) && emailValid && |password| >= 3
  {
    if |name| < 2 then Some("Name must be at least 2 characters.")
    else if |username| < 3 then Some("Username must be at least 3 characters.")
    else if |username| > 30 then Some("Username cannot exceed 30 characters.")
    else if !UsernamePattern(username) then Some("Username can only contain letters, numbers, and underscores.")
    else if !emailValid then Some("Please enter a valid email address.")
    else if |password| < 3 then Some("Password must be at least 3 characters.")
    else None
  }

  predicate EmailTaken(users: map<UserId, User>, email: string)
  {
    exists id :: id in users && users[id].email == email
  }

  predicate UsernameTaken(users: map<UserId, User>, username: string)
  {
    exists id :: id in users && users[id].username == username
  }

  /** Why a registration fails: a schema issue, then a used address, then a used username. */
  function RegisterError(users: map<UserId, User>, name: string, username: string, email: string, emailValid: bool,
                         password: string): (e: Option<string>)
    ensures e.None? <==>
      FirstIssue(name, username, emailValid, password).None? && !EmailTaken(users, email) && !UsernameTaken(users, username)
    ensures FirstIssue(name, username, emailValid, password).Some? ==> e == FirstIssue(name, username, emailValid, password)
    ensures FirstIssue(name, username, emailValid, password).None? && EmailTaken(users, email) ==>
      e == Some("Email already in use")
  {
    var issue := FirstIssue(name, username, emailValid, password);
    if issue.Some? then issue
    else if EmailTaken(users, email) then Some("Email already in use")
    else if UsernameTaken(users, username) then Some("Username already taken")
    else None
  }

  datatype Registration = Registration(success: bool, message: string)

  /**
   * `registerUser`: on success the user `id` (freshly generated) is inserted
   * with `hash(password)`; on any failure nothing is written.
   */
  method RegisterUser(db: Database, name: string, username: string, email: string, emailValid: bool, password: string,
                      hash: string -> string, id: UserId) returns (r: Registration)
    requires db.Valid() && id !in db.users
    modifies db
    ensures db.Valid()
    ensures var e := RegisterError(old(db.users), name, username, email, emailValid, password);
      if e.Some? then r == Registration(false, e.value) && db.Snapshot() == old(db.Snapshot())
      else r == Registration(true, "Registration successful") &&
           db.Snapshot() == old(db.Snapshot()).(users := old(db.users)[id := User(name, username, email, hash(password))])
  {
    var issue := FirstIssue(name, username, emailValid, password);
    if issue.Some? {
      return Registration(false, issue.value);
    }
    if exists other :: other in db.users && db.users[other].email == email {
      return Registration(false, "Email already in use");
    }
    if exists other :: other in db.users && db.users[other].username == username {
      return Registration(false, "Username already taken");
    }
    db.users := db.users[id := User(name, username, email, hash(password))];
    r := Registration(true, "Registration successful");
  }

  /**
   * After a registration, the same address or the same username is refused:
   * the address check comes first, so a repeat of the same request reports
   * the address.
   */
  lemma RegisterTwiceRefused(users: map<UserId, User>, name: string, username: string, email: string, emailValid: bool,
                             password: string, hash: string -> string, id: UserId,
                             name2: string, username2: string, email2: string, password2: string)
    requires RegisterError(users, name, username, email, emailValid, password).None?
    requires FirstIssue(name2, username2, emailValid, password2).None?
    ensures var after := users[id := User(name, username, email, hash(password))];
      (email2 == email ==> RegisterError(after, name2, username2, email2, emailValid, password2) == Some("Email already in use")) &&
      (email2 != email && !EmailTaken(users, email2) && username2 == username ==>
         RegisterError(after, name2, username2, email2, emailValid, password2) == Some("Username already taken"))
  {
    var after := users[id := User(name, username, email, hash(password))];
    assert after[id].email == email && after[id].username == username;
    if email2 != email && !EmailTaken(users, email2) {
      assert !EmailTaken(after, email2);
    }
  }
}
