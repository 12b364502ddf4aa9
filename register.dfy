/**
 * /api/auth/register: validate the role (STUDENT when omitted), refuse an
 * email already in use, then create the user and its profile together. The
 * password hasher is a parameter.
 */
module RegisterRoute {
  import opened Common
  import opened Collections
  import opened Entities
  import opened Http
  import opened Requests
  import opened Store

  /** The JSON body of a registration request; `role` is `None` when omitted. */
  datatype Form = Form(email: string, password: string, firstName: string, lastName: string, role: Option<string>)

  /** The destructuring default `role = 'STUDENT'`. */
  function RoleRequested(f: Form): (name: string)
    ensures f.role.None? ==> name == RoleLabel(Student)
    ensures f.role.Some? ==> name == f.role.value
  {
    if f.role.None? then "STUDENT" else f.role.value
  }

  /** The profile created with a new user: names from the form, nothing else filled in yet. */
  function NewProfile(userId: Id, f: Form): (p: Profile)
    ensures p.userId == userId && p.firstName == f.firstName && p.lastName == f.lastName
    ensures p.phone.None? && p.mbtiType.None? && !p.mbtiCompleted
    ensures p.resumeUrl.None? && p.certificateUrl.None?
  {
    Profile(userId, f.firstName, f.lastName, None, None, false, None, None)
  }

  /**
   * POST, as a function of the store: 400 for a role outside the three, 400
   * for an email in use, otherwise one user and one profile, both under the
   * new id that is returned.
   */
  function Register(t: Tables, f: Form, hash: string -> string, now: int): (out: Step<Id>)
    ensures out.reply.Ok? <==> RoleRequested(f) in ValidRoles && forall u :: u in t.users ==> u.email != f.email
    ensures !out.reply.Ok? ==> out.reply.Fail? && out.tables == t
    ensures out.reply.Fail? ==> out.reply.error in {BadRequest(InvalidRole), BadRequest(UserAlreadyExists)}
    ensures out.reply.Ok? ==>
      && out.reply.value == t.nextId
      && ParseRole(RoleRequested(f)).Some?
      && out.tables == t.(users := t.users + [User(t.nextId, f.email, hash(f.password), ParseRole(RoleRequested(f)).value, now)],
                          profiles := t.profiles + [NewProfile(t.nextId, f)],
                          nextId := t.nextId + 1)
  {
    match ParseRole(RoleRequested(f))
    case None => Step(Fail(BadRequest(InvalidRole)), t)
    case Some(role) =>
      if UserByEmail(t.users, f.email).Some? then Step(Fail(BadRequest(UserAlreadyExists)), t)
      else
        var hashedPassword := hash(f.password);
        var user := User(t.nextId, f.email, hashedPassword, role, now);
        Step(Ok(t.nextId), t.(users := t.users + [user],
                              profiles := t.profiles + [NewProfile(t.nextId, f)],
                              nextId := t.nextId + 1))
  }

  /** POST: the handler; the user and its profile are created in one atomic step. */
  method Post(db: Database, f: Form, hash: string -> string, now: int) returns (r: Reply<Id>)
    requires db.Valid()
    modifies db
    ensures db.Valid()
    ensures Step(r, db.Tables()) == Register(old(db.Tables()), f, hash, now)
  {
    var role := ParseRole(RoleRequested(f));
    if role.None? {
      return Fail(BadRequest(InvalidRole));
    }
    var existingUser := UserByEmail(db.users, f.email);
    if existingUser.Some? {
      return Fail(BadRequest(UserAlreadyExists));
    }
    var hashedPassword := hash(f.password);
    RegisterPreservesWellFormed(db.Tables(), f, hash, now);
    var id := db.nextId;
    db.users := db.users + [User(id, f.email, hashedPassword, role.value, now)];
    db.profiles := db.profiles + [NewProfile(id, f)];
    db.nextId := db.nextId + 1;
    r := Ok(id);
  }

  /** An omitted role registers a STUDENT. */
  lemma OmittedRoleIsStudent(t: Tables, f: Form, hash: string -> string, now: int)
    requires f.role.None?
    requires forall u :: u in t.users ==> u.email != f.email
    ensures var out := Register(t, f, hash, now);
      out.reply.Ok? && out.tables.users[|t.users|].role == Student
  {
  }

  /** A role outside the three gives 400 and creates nothing, whether or not the email is in use. */
  lemma InvalidRoleRefusedFirst(t: Tables, f: Form, hash: string -> string, now: int)
    requires f.role.Some? && f.role.value !in ValidRoles
    ensures Register(t, f, hash, now) == Step(Fail(BadRequest(InvalidRole)), t)
  {
  }

  /** A valid role with an email already in the store gives 400 and leaves the store unchanged. */
  lemma TakenEmailRefused(t: Tables, f: Form, hash: string -> string, now: int, u: User)
    requires RoleRequested(f) in ValidRoles
    requires u in t.users && u.email == f.email
    ensures Register(t, f, hash, now) == Step(Fail(BadRequest(UserAlreadyExists)), t)
  {
  }

  /**
   * Success adds exactly one user (with the hashed password and the requested
   * role) and exactly one profile owned by it.
   */
  lemma RegisterAddsUserAndProfile(t: Tables, f: Form, hash: string -> string, now: int)
    requires Register(t, f, hash, now).reply.Ok?
    ensures var out := Register(t, f, hash, now);
      var id := out.reply.value;
      && ParseRole(RoleRequested(f)).Some?
      && out.tables.users == t.users + [User(id, f.email, hash(f.password), ParseRole(RoleRequested(f)).value, now)]
      && out.tables.profiles == t.profiles + [NewProfile(id, f)]
      && out.tables.profiles[|t.profiles|].userId == id
      && out.tables.jobs == t.jobs && out.tables.applications == t.applications
  {
  }

  /** A hasher that never returns its input. */
  ghost predicate NeverIdentity(hash: string -> string) {
    forall p :: hash(p) != p
  }

  /** The stored password is never the plaintext, for a hasher that never returns its input. */
  lemma StoredPasswordIsNotPlaintext(t: Tables, f: Form, hash: string -> string, now: int)
    requires NeverIdentity(hash)
    requires Register(t, f, hash, now).reply.Ok?
    ensures Register(t, f, hash, now).tables.users[|t.users|].password == hash(f.password)
    ensures Register(t, f, hash, now).tables.users[|t.users|].password != f.password
  {
    assert hash(f.password) != f.password;
  }

  /** Registration keeps the store consistent: unique ids and emails, one profile per user. */
  lemma RegisterPreservesWellFormed(t: Tables, f: Form, hash: string -> string, now: int)
    requires WellFormed(t)
    ensures WellFormed(Register(t, f, hash, now).tables)
  {
    var out := Register(t, f, hash, now);
    if out.reply.Ok? {
      var users := out.tables.users;
      var profiles := out.tables.profiles;
      assert forall u :: u in t.users ==> u.email != f.email;
      forall i, j | 0 <= i < |users| && 0 <= j < |users| && i != j
        ensures users[i].id != users[j].id && users[i].email != users[j].email
      {
        if i < |t.users| && j < |t.users| {
        } else if i < |t.users| {
          assert users[i] in t.users;
        } else {
          assert users[j] in t.users;
        }
      }
      forall i, j | 0 <= i < |profiles| && 0 <= j < |profiles| && i != j
        ensures profiles[i].userId != profiles[j].userId
      {
        if i < |t.profiles| && j < |t.profiles| {
        } else if i < |t.profiles| {
          assert profiles[i] in t.profiles;
        } else {
          assert profiles[j] in t.profiles;
        }
      }
    }
  }
}
