/**
 * The admin-only user management endpoints over the user table: listing,
 * creating with a unique user name and defaults, and deleting with the
 * guards for unknown ids and the built-in admin account.
 */
module Users {
  import opened Wrappers
  import opened Text
  import Sql

  datatype User = User(
    id: int, username: string, passwordHash: string, role: string,
    fullName: Option<string>, email: Option<string>, createdAt: int)

  /** The request body; `role` defaults to "user" when the client leaves it out. */
  datatype UserCreate = UserCreate(
    username: string, password: string, role: string, fullName: Option<string>, email: Option<string>)

  const DefaultRole := "user"
  const AdminName := "admin"
  const MailDomain := "@gonopbx.local"

  function NewRequest(username: string, password: string, fullName: Option<string>, email: Option<string>): UserCreate {
    UserCreate(username, password, DefaultRole, fullName, email)
  }

  predicate HasName(rows: seq<User>, name: string) {
    exists i :: 0 <= i < |rows| && rows[i].username == name
  }

  predicate UniqueNames(rows: seq<User>) {
    forall i, j :: 0 <= i < j < |rows| ==> rows[i].username != rows[j].username
  }

  function UserId(u: User): int { u.id }

  /** The row with the given id, if any (`.filter(User.id == user_id).first()`). */
  function FindId(rows: seq<User>, id: int): Option<nat> {
    Sql.FirstWithKey(rows, UserId, id)
  }

  /** The row a successful create inserts: the name stands in for a missing full name and builds the e-mail. */
  function NewUser(id: int, req: UserCreate, hash: string, now: int): (u: User)
    ensures u.id == id && u.username == req.username && u.role == req.role
    ensures u.fullName == Some(OrElse(req.fullName, req.username))
    ensures u.email == Some(OrElse(req.email, req.username + MailDomain))
  {
    User(id, req.username, hash, req.role,
         Some(OrElse(req.fullName, req.username)), Some(OrElse(req.email, req.username + MailDomain)), now)
  }

  /** POST /api/users/: refused with 400 when the name is taken, otherwise the new row goes last. */
  function Created(rows: seq<User>, nextId: int, req: UserCreate, hash: string, now: int): (r: (Reply<User>, seq<User>))
    ensures HasName(rows, req.username) ==> r.0.Fail? && r.0.status == BadRequest && r.1 == rows
    ensures !HasName(rows, req.username) ==> r.0 == Ok(NewUser(nextId, req, hash, now)) && r.1 == rows + [r.0.value]
  {
    if HasName(rows, req.username) then (Fail(BadRequest, "Username already exists"), rows)
    else var u := NewUser(nextId, req, hash, now); (Ok(u), rows + [u])
  }

  /** Outcome of a delete request. */
  datatype Deleted = Deleted(username: string)

  /** DELETE /api/users/{id}: 404 for an unknown id, 400 for the admin account, otherwise that row goes. */
  function Removed(rows: seq<User>, id: int): (r: (Reply<Deleted>, seq<User>))
    ensures FindId(rows, id).None? ==> r.0 == Fail(NotFound, "User not found") && r.1 == rows
    ensures (FindId(rows, id).Some? && rows[FindId(rows, id).value].username == AdminName)
            ==> r.0 == Fail(BadRequest, "Cannot delete the admin account") && r.1 == rows
  {
    match FindId(rows, id)
    case None => (Fail(NotFound, "User not found"), rows)
    case Some(k) =>
      if rows[k].username == AdminName then (Fail(BadRequest, "Cannot delete the admin account"), rows)
      else (Ok(Deleted(rows[k].username)), rows[..k] + rows[k + 1..])
  }

  /** A create never leaves two users with one name. */
  lemma {:induction false} CreateKeepsNamesUnique(rows: seq<User>, nextId: int, req: UserCreate, hash: string, now: int)
    requires UniqueNames(rows)
    ensures UniqueNames(Created(rows, nextId, req, hash, now).1)
  {
    var after := Created(rows, nextId, req, hash, now).1;
    if !HasName(rows, req.username) {
      forall i, j | 0 <= i < j < |after| ensures after[i].username != after[j].username {
        if j == |rows| {
          assert after[i] == rows[i];
        } else {
          assert after[i] == rows[i] && after[j] == rows[j];
        }
      }
    }
  }

  /** Creating a user with a fresh name adds exactly one row, findable by its name. */
  lemma {:induction false} CreateAddsName(rows: seq<User>, nextId: int, req: UserCreate, hash: string, now: int)
    requires !HasName(rows, req.username)
    ensures HasName(Created(rows, nextId, req, hash, now).1, req.username)
    ensures |Created(rows, nextId, req, hash, now).1| == |rows| + 1
  {
    var after := Created(rows, nextId, req, hash, now).1;
    assert after[|rows|].username == req.username;
  }

  /** A user named "admin" is never removed, whatever id is asked for. */
  lemma {:induction false} AdminNeverDeleted(rows: seq<User>, id: int)
    requires HasName(rows, AdminName)
    ensures HasName(Removed(rows, id).1, AdminName)
  {
    var i :| 0 <= i < |rows| && rows[i].username == AdminName;
    match FindId(rows, id)
    case None =>
    case Some(k) =>
      if rows[k].username != AdminName {
        var after := Removed(rows, id).1;
        if i < k {
          assert after[i] == rows[i];
        } else {
          assert after[i - 1] == rows[i];
        }
      }
  }

  /** A successful delete removes exactly the row with that id; the others stay, in order. */
  lemma {:induction false} DeleteRemovesExactly(rows: seq<User>, id: int)
    requires Removed(rows, id).0.Ok?
    ensures exists k :: 0 <= k < |rows| && rows[k].id == id && rows[k].username != AdminName
              && Removed(rows, id).1 == rows[..k] + rows[k + 1..]
  {
    var k := FindId(rows, id).value;
    assert rows[k].id == id && rows[k].username != AdminName;
  }

  /** A delete keeps the names unique. */
  lemma {:induction false} DeleteKeepsNamesUnique(rows: seq<User>, id: int)
    requires UniqueNames(rows)
    ensures UniqueNames(Removed(rows, id).1)
  {
    match FindId(rows, id)
    case None =>
    case Some(k) =>
      if rows[k].username != AdminName {
        var after := Removed(rows, id).1;
        forall i, j | 0 <= i < j < |after| ensures after[i].username != after[j].username {
          var i0 := if i < k then i else i + 1;
          var j0 := if j < k then j else j + 1;
          assert after[i] == rows[i0] && after[j] == rows[j0];
        }
      }
  }

  /** The users table, in storage order, and the next value of its id sequence. */
  class UserTable {
    var rows: seq<User>
    var nextId: int

    ghost predicate Valid()
      reads this
    {
      UniqueNames(rows)
    }

    constructor (initial: seq<User>, next: int)
      requires UniqueNames(initial)
      ensures Valid() && rows == initial && nextId == next
    {
      rows := initial;
      nextId := next;
    }

    /** GET /api/users/: every row of the table. */
    method ListUsers() returns (all: seq<User>)
      ensures all == rows
    {
      all := rows;
    }

    /** `hash` is the password hash the foreign hashing routine computed for `req.password`. */
    method CreateUser(req: UserCreate, hash: string, now: int) returns (r: Reply<User>)
      requires Valid()
      modifies this
      ensures Valid()
      ensures (r, rows) == Created(old(rows), old(nextId), req, hash, now)
      ensures nextId == if r.Ok? then old(nextId) + 1 else old(nextId)
    {
      CreateKeepsNamesUnique(rows, nextId, req, hash, now);
      if HasName(rows, req.username) {
        return Fail(BadRequest, "Username already exists");
      }
      var u := NewUser(nextId, req, hash, now);
      rows := rows + [u];
      nextId := nextId + 1;
      return Ok(u);
    }

    method DeleteUser(id: int) returns (r: Reply<Deleted>)
      requires Valid()
      modifies this
      ensures Valid() && nextId == old(nextId)
      ensures (r, rows) == Removed(old(rows), id)
    {
      DeleteKeepsNamesUnique(rows, id);
      var found := FindId(rows, id);
      if found.None? {
        return Fail(NotFound, "User not found");
      }
      var k := found.value;
      if rows[k].username == AdminName {
        return Fail(BadRequest, "Cannot delete the admin account");
      }
      r := Ok(Deleted(rows[k].username));
      rows := rows[..k] + rows[k + 1..];
    }
  }
}
