/**
 * The passport strategies of src/lib/passport.js over the `users` table: the signin decision,
 * signup (insert, then fill in the role column), and the session's serialize/deserialize pair.
 * bcrypt is a pair of parameters: `hash(password, salt)` for `encryptPassword` (the random salt
 * of `genSalt(10)` is an input) and `compare(password, saved)` for `matchPassword`.
 */
module Passport {
  import opened JsValues
  import opened Schema
  import Auth

  /** `bcrypt.compare`: `Some(verdict)`, or `None` when it throws. */
  type Compare = (string, string) -> Option<bool>

  /** `helpers.matchPassword`: a throwing compare is logged and yields `undefined`, which is falsy. */
  predicate MatchPassword(compare: Compare, password: string, saved: string) {
    compare(password, saved) == Some(true)
  }

  const UnknownUser := Auth.Flash("message", "The Username does not exist.")
  const IncorrectPassword := Auth.Flash("message", "Incorrect Password")

  /** `done(null, user, ...)` or `done(null, false, ...)`, with the notice flashed beside it. */
  datatype SigninResult = SignedIn(user: User, flash: Auth.Flash) | Rejected(flash: Auth.Flash)

  predicate HasUsername(u: User, username: string) {
    u.username == username
  }

  /** The `local.signin` strategy: look the username up, then check the password of the first row. */
  function Signin(rows: seq<User>, username: string, password: string, compare: Compare): (r: SigninResult)
    ensures r.SignedIn? ==> r.user in rows && r.user.username == username
    ensures r.SignedIn? ==> MatchPassword(compare, password, r.user.password)
    ensures r.SignedIn? ==> r.flash == Auth.Flash("success", "Welcome " + username)
    ensures r == Rejected(UnknownUser) <==> forall j :: 0 <= j < |rows| ==> !HasUsername(rows[j], username)
    ensures r.Rejected? ==> r.flash == UnknownUser || r.flash == IncorrectPassword
  {
    match FirstWhere(rows, (u: User) => HasUsername(u, username))
    case None => Rejected(UnknownUser)
    case Some(i) =>
      var user := rows[i];
      if MatchPassword(compare, password, user.password) then SignedIn(user, Auth.Flash("success", "Welcome " + user.username))
      else Rejected(IncorrectPassword)
  }

  /** For a known username the first matching row decides: its hash matches, or the password is wrong. */
  lemma SigninWithKnownUsername(rows: seq<User>, username: string, password: string, compare: Compare, k: nat)
    requires k < |rows| && rows[k].username == username
    requires forall j :: 0 <= j < k ==> rows[j].username != username
    ensures MatchPassword(compare, password, rows[k].password) ==> Signin(rows, username, password, compare).SignedIn?
    ensures MatchPassword(compare, password, rows[k].password) ==> Signin(rows, username, password, compare).user == rows[k]
    ensures !MatchPassword(compare, password, rows[k].password) ==> Signin(rows, username, password, compare) == Rejected(IncorrectPassword)
  {
    var p := (u: User) => HasUsername(u, username);
    assert p(rows[k]);
    var i := FirstWhere(rows, p).value;
    assert p(rows[i]);
    assert i == k;
  }

  // -----------------------------------------------------------------------------------------
  // Sessions
  // -----------------------------------------------------------------------------------------

  /** `serializeUser`: the session stores the user's id. */
  function Serialize(u: User): int {
    u.id
  }

  /** `done(null, result[0])`, or `done(null, false)` when no row has the id. */
  datatype Deserialized = Found(user: User) | NotFound

  /** `deserializeUser`: look the stored id up again on every request. */
  function Deserialize(rows: seq<User>, id: int): (r: Deserialized)
    ensures r.Found? ==> r.user in rows && r.user.id == id
    ensures r == NotFound <==> forall j :: 0 <= j < |rows| ==> rows[j].id != id
  {
    match UserById(rows, id)
    case Some(u) => Found(u)
    case None => NotFound
  }

  /** While a user's row exists, deserializing its serialized id gives that same row back. */
  lemma SerializeRoundTrip(rows: seq<User>, u: User)
    requires IdsAscending(rows) && u in rows
    ensures Deserialize(rows, Serialize(u)) == Found(u)
  {
    var k :| 0 <= k < |rows| && rows[k] == u;
    UserByIdFindsRow(rows, k);
  }

  /** The request a later page sees: `req.user` is set only when the stored id still deserializes. */
  function SessionRequest(rows: seq<User>, session: Option<int>): (req: Auth.Request)
    ensures Auth.IsAuthenticated(req) <==> session.Some? && Deserialize(rows, session.value).Found?
  {
    match session
    case None => Auth.Request(None)
    case Some(id) =>
      match Deserialize(rows, id)
      case Found(u) => Auth.Request(Some(u))
      case NotFound => Auth.Request(None)
  }

  /** After a successful signin, the session it starts authenticates later requests as that user. */
  lemma SigninStartsSession(rows: seq<User>, username: string, password: string, compare: Compare)
    requires IdsAscending(rows)
    requires Signin(rows, username, password, compare).SignedIn?
    ensures SessionRequest(rows, Some(Serialize(Signin(rows, username, password, compare).user)))
         == Auth.Request(Some(Signin(rows, username, password, compare).user))
    ensures Auth.IsLoggedIn(SessionRequest(rows, Some(Serialize(Signin(rows, username, password, compare).user)))) == Auth.Next
  {
    SerializeRoundTrip(rows, Signin(rows, username, password, compare).user);
  }

  // -----------------------------------------------------------------------------------------
  // Signup
  // -----------------------------------------------------------------------------------------

  /** The contents of `users` and the next auto-increment id. */
  datatype Users = Users(rows: seq<User>, nextId: int)

  predicate Valid(t: Users) {
    && t.nextId >= 1
    && IdsAscending(t.rows)
    && forall j :: 0 <= j < |t.rows| ==> 1 <= t.rows[j].id < t.nextId
  }

  /** Which statement, if any, the store fails on: the INSERT, or the role UPDATE after it. */
  datatype StoreFault = NoFault | InsertFails | UpdateFails

  /** `done(null, newUser)`, or `done(error)` with the store's error. */
  datatype SignupResult = SignedUp(user: User) | StoreError

  /** `UPDATE users SET <column> = ? WHERE id = ?`, the column chosen by the role. */
  function SetRoleColumn(rows: seq<User>, id: int, role: string): (r: seq<User>)
    ensures |r| == |rows|
    ensures forall j :: 0 <= j < |rows| && rows[j].id != id ==> r[j] == rows[j]
    ensures forall j :: 0 <= j < |rows| && rows[j].id == id ==>
      r[j] == if role == "client" then rows[j].(clientId := Some(id))
              else if role == "barber" then rows[j].(barberId := Some(id))
              else rows[j]
  {
    seq(|rows|, j requires 0 <= j < |rows| =>
      if rows[j].id != id then rows[j]
      else if role == "client" then rows[j].(clientId := Some(id))
      else if role == "barber" then rows[j].(barberId := Some(id))
      else rows[j])
  }

  /** Whether signup issues the role UPDATE at all. */
  predicate HasRoleColumn(role: string) {
    role == "client" || role == "barber"
  }

  /**
   * The `local.signup` strategy in one step: insert the user with the hashed password, then
   * copy the new id into the role's column. The two statements are not one transaction.
   */
  function SignupStep(t: Users, fullname: string, username: string, password: string, role: string,
                      hash: (string, string) -> string, salt: string, fault: StoreFault): (r: (Users, SignupResult))
    requires Valid(t)
    ensures Valid(r.0)
    ensures fault == InsertFails ==> r == (t, StoreError)
    ensures r.1.SignedUp? <==> fault == NoFault || (fault == UpdateFails && !HasRoleColumn(role))
    ensures r.1.SignedUp? ==> r.1.user == User(t.nextId, fullname, username, hash(password, salt), role, None, None)
    ensures fault != InsertFails ==>
      && r.0.nextId == t.nextId + 1
      && |r.0.rows| == |t.rows| + 1
      && r.0.rows[..|t.rows|] == t.rows
      && var u := r.0.rows[|t.rows|];
         && u.id == t.nextId && u.fullname == fullname && u.username == username && u.role == role
         && u.password == hash(password, salt)
         && u.clientId == (if role == "client" && fault == NoFault then Some(t.nextId) else None)
         && u.barberId == (if role == "barber" && fault == NoFault then Some(t.nextId) else None)
  {
    var newUser := User(t.nextId, fullname, username, hash(password, salt), role, None, None);
    match fault
    case InsertFails => (t, StoreError)
    case _ =>
      var inserted := Users(t.rows + [newUser], t.nextId + 1);
      if !HasRoleColumn(role) then (inserted, SignedUp(newUser))
      else if fault == UpdateFails then (inserted, StoreError)
      else (inserted.(rows := SetRoleColumn(inserted.rows, newUser.id, role)), SignedUp(newUser))
  }

  /** The `users` table as the strategies change it. */
  class UserStore {
    var rows: seq<User>
    var nextId: int

    function State(): Users
      reads this
    {
      Users(rows, nextId)
    }

    constructor ()
      ensures Valid(State()) && rows == []
    {
      rows := [];
      nextId := 1;
    }

    /** Insert the new user, then fill in its role column: the two queries of `local.signup`. */
    method Signup(fullname: string, username: string, password: string, role: string,
                  hash: (string, string) -> string, salt: string, fault: StoreFault) returns (r: SignupResult)
      requires Valid(State())
      modifies this
      ensures Valid(State())
      ensures (State(), r) == SignupStep(old(State()), fullname, username, password, role, hash, salt, fault)
    {
      var newUser := User(0, fullname, username, password, role, None, None);
      newUser := newUser.(password := hash(password, salt));
      if fault == InsertFails {
        return StoreError;
      }
      newUser := newUser.(id := nextId);
      rows := rows + [newUser];
      nextId := nextId + 1;
      if role == "client" || role == "barber" {
        if fault == UpdateFails {
          return StoreError;
        }
        rows := SetRoleColumn(rows, newUser.id, role);
      }
      r := SignedUp(newUser);
    }
  }

  /**
   * A successful signup is visible to the session: the new id deserializes to the stored row,
   * whose role column holds the id, although the object handed to `done` does not carry it.
   */
  lemma SignupThenDeserialize(t: Users, fullname: string, username: string, password: string, role: string,
                              hash: (string, string) -> string, salt: string)
    requires Valid(t)
    ensures var r := SignupStep(t, fullname, username, password, role, hash, salt, NoFault);
      && r.1.SignedUp?
      && Deserialize(r.0.rows, Serialize(r.1.user)).Found?
      && var stored := Deserialize(r.0.rows, Serialize(r.1.user)).user;
         && stored.password == hash(password, salt)
         && stored.username == username
         && (role == "client" ==> stored.clientId == Some(t.nextId) && r.1.user.clientId == None)
         && (role == "barber" ==> stored.barberId == Some(t.nextId) && r.1.user.barberId == None)
  {
    var r := SignupStep(t, fullname, username, password, role, hash, salt, NoFault);
    UserByIdFindsRow(r.0.rows, |t.rows|);
  }
}
