/**
 * /api/admin/users: every user, newest first, with a summary of their
 * profile; only for a token whose role claim is ADMIN (403 otherwise, also
 * when there is no session). The handler as written returns whole user
 * rows, password hashes included; `Get` is the listing without them.
 */
module AdminUsersRoute {
  import opened Common
  import opened Collections
  import opened Sorting
  import opened Entities
  import opened Auth
  import opened Http
  import opened Requests

  /** `profile: { select: { firstName, lastName, mbtiType, mbtiCompleted } }`. */
  datatype ProfileSummary = ProfileSummary(firstName: string, lastName: string, mbtiType: Option<string>, mbtiCompleted: bool)

  /** One listed user as the handler writes it: the whole row, and the profile summary. */
  datatype UserRow = UserRow(user: User, profile: Option<ProfileSummary>)

  /** One listed user without the password hash. */
  datatype SafeRow = SafeRow(id: Id, email: string, role: Role, createdAt: int, profile: Option<ProfileSummary>)

  function Summary(p: Profile): (s: ProfileSummary)
    ensures s.firstName == p.firstName && s.lastName == p.lastName
    ensures s.mbtiType == p.mbtiType && s.mbtiCompleted == p.mbtiCompleted
  {
    ProfileSummary(p.firstName, p.lastName, p.mbtiType, p.mbtiCompleted)
  }

  /** The joined profile of `u`, summarised. */
  function SummaryOf(profiles: seq<Profile>, u: User): Option<ProfileSummary> {
    match ProfileOf(profiles, u.id)
    case None => None
    case Some(p) => Some(Summary(p))
  }

  /** The row the handler writes for `u`. */
  function RowOf(profiles: seq<Profile>): User -> UserRow {
    (u: User) => UserRow(u, SummaryOf(profiles, u))
  }

  /** The row without the password for `u`. */
  function SafeRowOf(profiles: seq<Profile>): User -> SafeRow {
    (u: User) => SafeRow(u.id, u.email, u.role, u.createdAt, SummaryOf(profiles, u))
  }

  /** The guard: a verified store token whose role claim is ADMIN; the stored role is not consulted. */
  predicate AdminClaim(req: Incoming) {
    StoreUser(req).Some? && StoreUser(req).value.role == Some(RoleLabel(Admin))
  }

  /** GET as written: every user row with all its columns, the password hash among them. */
  function GetAsWritten(t: Tables, req: Incoming): (r: Reply<seq<UserRow>>)
    ensures r.Ok? <==> AdminClaim(req)
    ensures !r.Ok? ==> r == Fail(Forbidden)
    ensures r.Ok? ==> |r.value| == |t.users|
    ensures r.Ok? ==> forall u :: u in t.users ==> UserRow(u, SummaryOf(t.profiles, u)) in r.value
    ensures r.Ok? ==> forall row :: row in r.value ==> row.user in t.users && row.profile == SummaryOf(t.profiles, row.user)
    ensures r.Ok? ==> SortedDesc(r.value, (row: UserRow) => row.user.createdAt)
  {
    if !AdminClaim(req) then Fail(Forbidden)
    else
      var sorted := SortByKeyDesc(t.users, UserCreatedAt);
      SortedMembers(t.users, UserCreatedAt);
      MapSeqMembers(sorted, RowOf(t.profiles));
      assert |sorted| == |multiset(sorted)| == |multiset(t.users)| == |t.users|;
      MapKeepsSorted(sorted, RowOf(t.profiles), UserCreatedAt, (row: UserRow) => row.user.createdAt);
      Ok(MapSeq(sorted, RowOf(t.profiles)))
  }

  /** As written, the answer carries every stored user row unchanged, password hash included. */
  lemma ListingExposesPasswords(t: Tables, req: Incoming, u: User)
    requires AdminClaim(req) && u in t.users
    ensures exists row :: row in GetAsWritten(t, req).value && row.user == u && row.user.password == u.password
  {
    var sorted := SortByKeyDesc(t.users, UserCreatedAt);
    SortedMembers(t.users, UserCreatedAt);
    var i :| 0 <= i < |sorted| && sorted[i] == u;
    assert GetAsWritten(t, req).value[i] == RowOf(t.profiles)(u);
  }

  /** A token the verifier accepts with an ADMIN role claim, in the cookie store. */
  function AdminRequest(): Incoming {
    Incoming(None, Available(Some("t")), Verifier(None, (token: string, secret: string) => Verified(Claims(Some(0), None, Some("ADMIN")))))
  }

  /** Two stores that differ only in one password hash get different answers as written. */
  lemma AsWrittenAnswerDependsOnPassword()
    ensures AdminClaim(AdminRequest())
    ensures GetAsWritten(Tables([User(1, "a@b", "h1", Student, 0)], [], [], [], 2), AdminRequest())
         != GetAsWritten(Tables([User(1, "a@b", "h2", Student, 0)], [], [], [], 2), AdminRequest())
  {
    var t1 := Tables([User(1, "a@b", "h1", Student, 0)], [], [], [], 2);
    var t2 := Tables([User(1, "a@b", "h2", Student, 0)], [], [], [], 2);
    assert GetAsWritten(t1, AdminRequest()).value[0].user.password == "h1";
    assert GetAsWritten(t2, AdminRequest()).value[0].user.password == "h2";
  }

  /** GET without the password: the same listing, newest first, each row with its hash dropped. */
  function Get(t: Tables, req: Incoming): (r: Reply<seq<SafeRow>>)
    ensures r.Ok? <==> AdminClaim(req)
    ensures !r.Ok? ==> r == Fail(Forbidden)
    ensures r.Ok? ==> SortedDesc(r.value, (s: SafeRow) => s.createdAt)
  {
    if !AdminClaim(req) then Fail(Forbidden)
    else
      var rows := MapSeq(SortByKeyDesc(t.users, UserCreatedAt), SafeRowOf(t.profiles));
      MapKeepsSorted(SortByKeyDesc(t.users, UserCreatedAt), SafeRowOf(t.profiles), UserCreatedAt, (s: SafeRow) => s.createdAt);
      Ok(rows)
  }

  /** Dropping the password hash from a written row. */
  function DropPassword(row: UserRow): SafeRow {
    SafeRow(row.user.id, row.user.email, row.user.role, row.user.createdAt, row.profile)
  }

  /** The corrected listing is the written one, row for row, without the hashes. */
  lemma GetIsAsWrittenWithoutPasswords(t: Tables, req: Incoming)
    requires AdminClaim(req)
    ensures Get(t, req).value == MapSeq(GetAsWritten(t, req).value, DropPassword)
  {
  }

  /** Each user's password hash replaced by `hash(id)`. */
  function Rehash(hash: Id -> string): User -> User {
    (u: User) => u.(password := hash(u.id))
  }

  /** The corrected answer does not depend on the stored password hashes. */
  lemma {:induction false} GetIgnoresPasswords(t: Tables, req: Incoming, hash: Id -> string)
    ensures Get(t.(users := MapSeq(t.users, Rehash(hash))), req) == Get(t, req)
  {
    if AdminClaim(req) {
      var sorted := SortByKeyDesc(t.users, UserCreatedAt);
      SortCommutesWithMap(t.users, Rehash(hash), UserCreatedAt, UserCreatedAt);
      var resorted := SortByKeyDesc(MapSeq(t.users, Rehash(hash)), UserCreatedAt);
      assert resorted == MapSeq(sorted, Rehash(hash));
      assert MapSeq(resorted, SafeRowOf(t.profiles)) == MapSeq(sorted, SafeRowOf(t.profiles));
    }
  }

  /** Only the token's role claim matters: a stored administrator whose token says otherwise is refused. */
  lemma ClaimDecidesAccess(t: Tables, req: Incoming)
    requires StoreUser(req).Some? && StoreUser(req).value.role != Some("ADMIN")
    ensures Get(t, req) == Fail(Forbidden) && GetAsWritten(t, req) == Fail(Forbidden)
  {
  }
}
