/** Administering staff, role grants and platforms. Nothing in the system can grant
    ADMIN but an administrator, so the last one must never be locked out. */
module Admin {
  import opened Basics
  import opened Access

  type GrantId = nat

  datatype AccountStatus = Active | Disabled
  /** The login subject is `local:` and the address for accounts made here, and
      whatever the identity provider says for accounts it vouches for. */
  datatype StaffUser = StaffUser(subject: string, email: string, name: string, status: AccountStatus, tokenVersion: nat)
  datatype StaffGrant = StaffGrant(staff: StaffId, role: Role, platform: Option<PlatformId>)
  datatype Filed = Filed(platform: PlatformId, assignee: Option<StaffId>)

  datatype Directory = Directory(staff: map<StaffId, StaffUser>, grants: map<GrantId, StaffGrant>,
                                 platforms: map<PlatformId, string>, issues: map<IssueId, Filed>)

  datatype Error = NotFound | BadRequest | Conflict

  /** What administrators ask for; new rows come with the id the store gave them.
      `File` stands for reporters filing issues and staff being assigned. */
  datatype Op =
    | CreateStaff(newStaff: StaffId, email: string, name: string)
    | UpdateStaff(staff: StaffId, newName: Option<string>, newEmail: Option<string>, status: Option<AccountStatus>)
    | DeleteStaff(staff: StaffId)
    | AssignRole(newGrant: GrantId, staff: StaffId, role: Role, platform: Option<PlatformId>)
    | RevokeRole(grant: GrantId)
    | CreatePlatform(newPlatform: PlatformId, key: string)
    | DeletePlatform(doomed: PlatformId)
    | File(issue: IssueId, filed: Filed)

  datatype Outcome = Done(world: Directory) | Refused(error: Error)

  /** The ids the store hands out are new. */
  predicate Possible(w: Directory, op: Op) {
    match op
    case CreateStaff(id, _, _) => id !in w.staff
    case AssignRole(id, _, _, _) => id !in w.grants
    case CreatePlatform(id, _) => id !in w.platforms
    case _ => true
  }

  predicate HoldsAdmin(w: Directory, g: GrantId) {
    && g in w.grants && w.grants[g].role == Administrator
    && w.grants[g].staff in w.staff && w.staff[w.grants[g].staff].status == Active
  }

  predicate OtherAdmins(w: Directory, id: StaffId) {
    exists g <- w.grants :: HoldsAdmin(w, g) && w.grants[g].staff != id
  }

  /** The login subject of an account made here, for an address in lower case. */
  function LocalSubject(email: string): string { "local:" + email }

  predicate IsLocal(subject: string) { "local:" <= subject }

  /** Someone other than `id` has the address, or the login subject made from it. */
  predicate EmailTaken(w: Directory, email: string, id: Option<StaffId>) {
    exists s <- w.staff :: (w.staff[s].email == email || w.staff[s].subject == LocalSubject(email)) && id != Some(s)
  }

  function NewStaff(email: string, name: string): StaffUser { StaffUser(LocalSubject(email), email, name, Active, 1) }

  /** Deleting a staff row takes its grants along and unassigns its issues. */
  function WithoutStaff(w: Directory, id: StaffId): Directory {
    w.(staff := w.staff - {id},
       grants := map g | g in w.grants && w.grants[g].staff != id :: w.grants[g],
       issues := map i | i in w.issues ::
                   if w.issues[i].assignee == Some(id) then w.issues[i].(assignee := None) else w.issues[i])
  }

  /** Deleting a platform takes the grants on it along. */
  function WithoutPlatform(w: Directory, id: PlatformId): Directory {
    w.(platforms := w.platforms - {id},
       grants := map g | g in w.grants && w.grants[g].platform != Some(id) :: w.grants[g])
  }

  function Renamed(u: StaffUser, name: Option<string>, email: Option<string>): StaffUser {
    var u := u.(name := OrElse(name, u.name));
    if email.Some? && Lower(email.value) != u.email then
      u.(email := Lower(email.value), subject := LocalSubject(Lower(email.value)), tokenVersion := u.tokenVersion + 1)
    else u
  }

  function Restatused(u: StaffUser, status: Option<AccountStatus>): StaffUser {
    if status.Some? && status.value != u.status then
      u.(status := status.value, tokenVersion := u.tokenVersion + if status.value == Disabled then 1 else 0)
    else u
  }

  function UpdateStaffOutcome(w: Directory, admin: StaffId, id: StaffId, name: Option<string>, email: Option<string>,
                              status: Option<AccountStatus>): Outcome
  {
    if id !in w.staff then Refused(NotFound)
    else
      var u := w.staff[id];
      var disabling := status == Some(Disabled) && u.status != Disabled;
      if disabling && id == admin then Refused(BadRequest)
      else if disabling && !OtherAdmins(w, id) then Refused(Conflict)
      else if email.Some? && Lower(email.value) != u.email && EmailTaken(w, Lower(email.value), Some(id)) then
        Refused(Conflict)
      else Done(w.(staff := w.staff[id := Restatused(Renamed(u, name, email), status)]))
  }

  function AssignRoleOutcome(w: Directory, id: GrantId, staff: StaffId, role: Role,
                             platform: Option<PlatformId>): Outcome
  {
    if role == FocalPoint && platform.None? then Refused(BadRequest)
    else if role == Administrator && platform.Some? then Refused(BadRequest)
    else if staff !in w.staff then Refused(NotFound)
    else if platform.Some? && platform.value !in w.platforms then Refused(NotFound)
    else if exists g <- w.grants :: w.grants[g] == StaffGrant(staff, role, platform) then Refused(Conflict)
    else Done(w.(grants := w.grants[id := StaffGrant(staff, role, platform)]))
  }

  /** What an operation asked for by `admin` does. */
  function Apply(w: Directory, admin: StaffId, op: Op): Outcome {
    match op
    case CreateStaff(id, email, name) =>
      if EmailTaken(w, Lower(email), None) then Refused(Conflict)
      else Done(w.(staff := w.staff[id := NewStaff(Lower(email), name)]))
    case UpdateStaff(id, name, email, status) => UpdateStaffOutcome(w, admin, id, name, email, status)
    case DeleteStaff(id) =>
      if id !in w.staff then Refused(NotFound)
      else if id == admin then Refused(BadRequest)
      else if !OtherAdmins(w, id) then Refused(Conflict)
      else Done(WithoutStaff(w, id))
    case AssignRole(id, staff, role, platform) => AssignRoleOutcome(w, id, staff, role, platform)
    case RevokeRole(id) =>
      if id !in w.grants then Refused(NotFound)
      else if w.grants[id].role == Administrator && !OtherAdmins(w, w.grants[id].staff) then Refused(Conflict)
      else Done(w.(grants := w.grants - {id}))
    case CreatePlatform(id, key) =>
      if exists p <- w.platforms :: w.platforms[p] == key then Refused(Conflict)
      else Done(w.(platforms := w.platforms[id := key]))
    case DeletePlatform(id) =>
      if id !in w.platforms then Refused(NotFound)
      else if exists i <- w.issues :: w.issues[i].platform == id then Refused(Conflict)
      else Done(WithoutPlatform(w, id))
    case File(issue, filed) =>
      if filed.platform !in w.platforms || (filed.assignee.Some? && filed.assignee.value !in w.staff) then
        Refused(NotFound)
      else Done(w.(issues := w.issues[issue := filed]))
  }

  function Next(w: Directory, admin: StaffId, op: Op): Directory {
    match Apply(w, admin, op)
    case Done(after) => after
    case Refused(_) => w
  }

  // ---- What is kept -----------------------------------------------------------

  ghost predicate ActiveAdmin(w: Directory) { exists g :: HoldsAdmin(w, g) }

  /** Administrators are global, focal points are not. */
  ghost predicate WellScoped(w: Directory) {
    forall g <- w.grants :: (w.grants[g].role == Administrator ==> w.grants[g].platform.None?)
                         && (w.grants[g].role == FocalPoint ==> w.grants[g].platform.Some?)
  }

  /** Nothing refers to a row that is gone. */
  ghost predicate NothingDangles(w: Directory) {
    && (forall g <- w.grants :: w.grants[g].staff in w.staff)
    && (forall g <- w.grants :: w.grants[g].platform.Some? ==> w.grants[g].platform.value in w.platforms)
    && (forall i <- w.issues :: w.issues[i].platform in w.platforms)
    && (forall i <- w.issues :: w.issues[i].assignee.Some? ==> w.issues[i].assignee.value in w.staff)
  }

  /** No address and no login subject is used twice, and the subjects of accounts
      made here follow their addresses. */
  ghost predicate IdentitiesApart(staff: map<StaffId, StaffUser>) {
    && (forall s <- staff, t <- staff ::
          staff[s].email == staff[t].email || staff[s].subject == staff[t].subject ==> s == t)
    && (forall s <- staff :: IsLocal(staff[s].subject) ==> staff[s].subject == LocalSubject(staff[s].email))
  }

  ghost predicate Distinct<T>(rows: map<nat, T>) {
    forall r <- rows, q <- rows :: rows[r] == rows[q] ==> r == q
  }

  /** No two staff share an identity, no two platforms a key, and no grant is given twice. */
  ghost predicate NothingTwice(w: Directory) {
    IdentitiesApart(w.staff) && Distinct(w.platforms) && Distinct(w.grants)
  }

  ghost predicate Inv(w: Directory) { ActiveAdmin(w) && WellScoped(w) && NothingDangles(w) && NothingTwice(w) }

  lemma OthersStay(w: Directory, t: Directory, id: StaffId)
    requires OtherAdmins(w, id)
    requires forall g <- w.grants :: w.grants[g].role == Administrator && w.grants[g].staff != id ==>
               g in t.grants && t.grants[g] == w.grants[g]
    requires forall s <- w.staff :: s != id ==> s in t.staff && t.staff[s].status == w.staff[s].status
    ensures ActiveAdmin(t)
  {
    var g :| g in w.grants && HoldsAdmin(w, g) && w.grants[g].staff != id;
    assert HoldsAdmin(t, g);
  }

  lemma AdminsStay(w: Directory, t: Directory)
    requires ActiveAdmin(w)
    requires forall g <- w.grants :: w.grants[g].role == Administrator ==> g in t.grants && t.grants[g] == w.grants[g]
    requires forall s <- w.staff :: s in t.staff && (w.staff[s].status == Active ==> t.staff[s].status == Active)
    ensures ActiveAdmin(t)
  {
    var g :| HoldsAdmin(w, g);
    assert HoldsAdmin(t, g);
  }

  /** Fewer grants, or the same, are as well scoped and as distinct. */
  lemma FewerGrants(w: Directory, t: Directory)
    requires WellScoped(w) && NothingTwice(w)
    requires forall g <- t.grants :: g in w.grants && t.grants[g] == w.grants[g]
    requires forall s <- t.staff :: s in w.staff && t.staff[s] == w.staff[s]
    requires forall p <- t.platforms :: p in w.platforms && t.platforms[p] == w.platforms[p]
    ensures WellScoped(t) && NothingTwice(t)
  {
  }

  /** One account more, or an account changed, whose identity nobody else has. */
  lemma OneIdentityMore(w: Directory, id: StaffId, u: StaffUser)
    requires IdentitiesApart(w.staff) && u.subject == LocalSubject(u.email) && !EmailTaken(w, u.email, Some(id))
    ensures IdentitiesApart(w.staff[id := u])
  {
    hide LocalSubject;
    assert forall s <- w.staff :: s != id ==> w.staff[s].email != u.email && w.staff[s].subject != u.subject;
  }

  lemma CreateStaffKeeps(w: Directory, id: StaffId, email: string, name: string)
    requires Inv(w) && id !in w.staff && !EmailTaken(w, Lower(email), None)
    ensures Inv(w.(staff := w.staff[id := NewStaff(Lower(email), name)]))
  {
    var u := NewStaff(Lower(email), name);
    var t := w.(staff := w.staff[id := u]);
    OneIdentityMore(w, id, u);
    hide Lower, IdentitiesApart, Distinct, EmailTaken, LocalSubject;
    assert WellScoped(t) && NothingDangles(t) by { hide ActiveAdmin; }
    hide WellScoped, NothingDangles, ActiveAdmin;
    AdminsStay(w, t);
  }

  lemma UpdateStaffKeepsRows(w: Directory, id: StaffId, now: StaffUser)
    requires WellScoped(w) && NothingDangles(w) && NothingTwice(w) && id in w.staff
    requires now.email == w.staff[id].email ==> now.subject == w.staff[id].subject
    requires now.email != w.staff[id].email ==>
               now.subject == LocalSubject(now.email) && !EmailTaken(w, now.email, Some(id))
    ensures var t := w.(staff := w.staff[id := now]); WellScoped(t) && NothingDangles(t) && NothingTwice(t)
  {
    var t := w.(staff := w.staff[id := now]);
    if now.email != w.staff[id].email {
      OneIdentityMore(w, id, now);
    }
    assert IdentitiesApart(t.staff) by { hide WellScoped, NothingDangles, Distinct, EmailTaken, LocalSubject, IsLocal; }
    hide IdentitiesApart, Distinct, EmailTaken;
    assert WellScoped(t) && NothingDangles(t);
  }

  lemma UpdateStaffKeeps(w: Directory, admin: StaffId, id: StaffId, name: Option<string>, email: Option<string>,
                         status: Option<AccountStatus>)
    requires Inv(w) && UpdateStaffOutcome(w, admin, id, name, email, status).Done?
    ensures Inv(UpdateStaffOutcome(w, admin, id, name, email, status).world)
  {
    hide WellScoped, NothingDangles, NothingTwice, ActiveAdmin, OtherAdmins, EmailTaken, Lower, LocalSubject;
    var was, now := w.staff[id], Restatused(Renamed(w.staff[id], name, email), status);
    var t := w.(staff := w.staff[id := now]);
    UpdateStaffKeepsRows(w, id, now);
    if status == Some(Disabled) && was.status != Disabled {
      OthersStay(w, t, id);
    } else {
      AdminsStay(w, t);
    }
  }

  lemma DeleteStaffKeeps(w: Directory, id: StaffId)
    requires Inv(w) && id in w.staff && OtherAdmins(w, id)
    ensures Inv(WithoutStaff(w, id))
  {
    hide OtherAdmins, ActiveAdmin;
    var t := WithoutStaff(w, id);
    assert NothingDangles(t) by { hide WellScoped, NothingTwice; }
    hide WellScoped, NothingTwice, NothingDangles;
    FewerGrants(w, t);
    OthersStay(w, t, id);
  }

  lemma AssignRoleKeeps(w: Directory, id: GrantId, grant: StaffGrant)
    requires Inv(w) && id !in w.grants && grant.staff in w.staff
    requires grant.role == FocalPoint ==> grant.platform.Some?
    requires grant.role == Administrator ==> grant.platform.None?
    requires grant.platform.Some? ==> grant.platform.value in w.platforms
    requires forall g <- w.grants :: w.grants[g] != grant
    ensures Inv(w.(grants := w.grants[id := grant]))
  {
    var t := w.(grants := w.grants[id := grant]);
    hide IdentitiesApart, Distinct, ActiveAdmin;
    AdminsStay(w, t);
    assert WellScoped(t) by { hide NothingDangles; }
    hide WellScoped;
    assert NothingDangles(t);
    hide NothingDangles;
    OneRowMore(w.grants, id, grant);
  }

  lemma OneRowMore<T>(rows: map<nat, T>, id: nat, row: T)
    requires Distinct(rows) && forall r <- rows :: rows[r] != row
    ensures Distinct(rows[id := row])
  {
  }

  lemma RevokeRoleKeeps(w: Directory, id: GrantId)
    requires Inv(w) && id in w.grants
    requires w.grants[id].role == Administrator ==> OtherAdmins(w, w.grants[id].staff)
    ensures Inv(w.(grants := w.grants - {id}))
  {
    var t := w.(grants := w.grants - {id});
    assert NothingDangles(t) by { hide WellScoped, NothingTwice, OtherAdmins, ActiveAdmin; }
    hide NothingDangles;
    FewerGrants(w, t);
    hide WellScoped, NothingTwice, ActiveAdmin, OtherAdmins;
    if w.grants[id].role == Administrator {
      OthersStay(w, t, w.grants[id].staff);
    } else {
      AdminsStay(w, t);
    }
  }

  /** An administrator's grant is on no platform, so it goes with none. */
  lemma DeletePlatformKeeps(w: Directory, id: PlatformId)
    requires Inv(w) && forall i <- w.issues :: w.issues[i].platform != id
    ensures Inv(WithoutPlatform(w, id))
  {
    var t := WithoutPlatform(w, id);
    assert NothingDangles(t) by { hide WellScoped, NothingTwice, ActiveAdmin; }
    hide NothingDangles;
    assert forall g <- w.grants :: w.grants[g].role == Administrator ==> g in t.grants;
    FewerGrants(w, t);
    hide WellScoped, NothingTwice, ActiveAdmin;
    AdminsStay(w, t);
  }

  lemma CreatePlatformKeeps(w: Directory, id: PlatformId, key: string)
    requires Inv(w) && id !in w.platforms && forall p <- w.platforms :: w.platforms[p] != key
    ensures Inv(w.(platforms := w.platforms[id := key]))
  {
    var t := w.(platforms := w.platforms[id := key]);
    hide IdentitiesApart, Distinct;
    AdminsStay(w, t);
    hide ActiveAdmin;
    assert WellScoped(t) && NothingDangles(t);
    hide WellScoped, NothingDangles;
    OneRowMore(w.platforms, id, key);
  }

  lemma FileKeeps(w: Directory, issue: IssueId, filed: Filed)
    requires Inv(w) && filed.platform in w.platforms && (filed.assignee.Some? ==> filed.assignee.value in w.staff)
    ensures Inv(w.(issues := w.issues[issue := filed]))
  {
    hide ActiveAdmin, IdentitiesApart, Distinct;
    var t := w.(issues := w.issues[issue := filed]);
    assert NothingDangles(t) by { hide WellScoped; }
    hide NothingDangles;
    assert WellScoped(t);
    hide WellScoped;
    AdminsStay(w, t);
  }

  lemma OpKeeps(w: Directory, admin: StaffId, op: Op)
    requires Inv(w) && Possible(w, op)
    ensures Inv(Next(w, admin, op))
  {
    hide Inv, EmailTaken, OtherAdmins, UpdateStaffOutcome, WithoutStaff, WithoutPlatform;
    if Apply(w, admin, op).Done? {
      match op
      case CreateStaff(id, email, name) => CreateStaffKeeps(w, id, email, name);
      case UpdateStaff(id, name, email, status) => UpdateStaffKeeps(w, admin, id, name, email, status);
      case DeleteStaff(id) => DeleteStaffKeeps(w, id);
      case AssignRole(id, staff, role, platform) => AssignRoleKeeps(w, id, StaffGrant(staff, role, platform));
      case RevokeRole(id) => RevokeRoleKeeps(w, id);
      case CreatePlatform(id, key) => CreatePlatformKeeps(w, id, key);
      case DeletePlatform(id) => DeletePlatformKeeps(w, id);
      case File(issue, filed) => FileKeeps(w, issue, filed);
    }
  }

  /** One operation after another, each by whoever asks for it. */
  ghost predicate Leads(w: Directory, asked: seq<(StaffId, Op)>, t: Directory)
    decreases |asked|
  {
    if asked == [] then w == t
    else Possible(w, asked[0].1) && Leads(Next(w, asked[0].0, asked[0].1), asked[1..], t)
  }

  /** Over every run of operations, someone active can still administer; every
      ADMIN grant stays global and every focal point scoped; no reference dangles;
      and no address, key or grant is there twice. */
  lemma {:induction false} EveryRunKeeps(w: Directory, asked: seq<(StaffId, Op)>, t: Directory)
    requires Inv(w) && Leads(w, asked, t)
    ensures ActiveAdmin(t) && WellScoped(t) && NothingDangles(t) && NothingTwice(t)
    decreases |asked|
  {
    if asked != [] {
      OpKeeps(w, asked[0].0, asked[0].1);
      hide Inv, Next, ActiveAdmin, WellScoped, NothingDangles, NothingTwice, Possible;
      EveryRunKeeps(Next(w, asked[0].0, asked[0].1), asked[1..], t);
    }
  }

  // ---- The guard is exact -----------------------------------------------------

  /** What an operation guarded against locking everyone out would leave behind if
      it were carried out. */
  function Unguarded(w: Directory, op: Op): Directory
    requires op.UpdateStaff? ==> op.staff in w.staff
  {
    match op
    case UpdateStaff(id, name, email, status) =>
      w.(staff := w.staff[id := Restatused(Renamed(w.staff[id], name, email), status)])
    case DeleteStaff(id) => WithoutStaff(w, id)
    case RevokeRole(id) => w.(grants := w.grants - {id})
    case _ => w
  }

  /** Disabling, deleting or revoking is refused for want of another administrator
      exactly when it would leave none; nothing harmless is refused. */
  lemma RefusedIffItLocksOut(w: Directory, admin: StaffId, op: Op)
    requires Inv(w)
    requires match op
             case UpdateStaff(id, _, None, Some(Disabled)) =>
               id in w.staff && w.staff[id].status == Active && id != admin
             case DeleteStaff(id) => id in w.staff && id != admin
             case RevokeRole(id) => id in w.grants
             case _ => false
    ensures Apply(w, admin, op) == Refused(Conflict) <==> !ActiveAdmin(Unguarded(w, op))
    ensures Apply(w, admin, op) != Refused(Conflict) ==> Apply(w, admin, op) == Done(Unguarded(w, op))
  {
    OpKeeps(w, admin, op);
    if Apply(w, admin, op) == Refused(Conflict) {
      var t := Unguarded(w, op);
      hide NothingDangles;
      forall g ensures !HoldsAdmin(t, g) {
        assert HoldsAdmin(t, g) ==> HoldsAdmin(w, g);
      }
    }
  }

  /** A clash over a new address is always with someone else: the row being edited
      has neither the address nor the subject made from it. */
  lemma ClashIsWithAnother(w: Directory, id: StaffId, email: string)
    requires Inv(w) && id in w.staff && w.staff[id].email != email
    ensures EmailTaken(w, email, None) <==> EmailTaken(w, email, Some(id))
  {
    hide ActiveAdmin, WellScoped, NothingDangles, Distinct;
    assert LocalSubject(email)[|"local:"|..] == email;
    assert LocalSubject(w.staff[id].email)[|"local:"|..] == w.staff[id].email;
    assert w.staff[id].subject != LocalSubject(email);
  }

  /** Sessions end: whoever is disabled, or whose address changes, has a token
      version no earlier token carries; nothing ever lowers it. */
  lemma SessionsEnd(w: Directory, admin: StaffId, op: Op, s: StaffId)
    requires Possible(w, op) && s in w.staff && s in Next(w, admin, op).staff
    ensures var was, now := w.staff[s], Next(w, admin, op).staff[s];
            && now.tokenVersion >= was.tokenVersion
            && (now.email != was.email || (was.status == Active && now.status == Disabled) ==>
                now.tokenVersion > was.tokenVersion)
  {
  }

  // ---- One operation at a time? -----------------------------------------------

  /** An operation that may take away an administrator: disabling, deletion, revocation. */
  predicate TakesAdmin(w: Directory, op: Op) {
    match op
    case UpdateStaff(id, _, _, Some(Disabled)) => id in w.staff
    case DeleteStaff(id) => id in w.staff
    case RevokeRole(id) => id in w.grants && w.grants[id].role == Administrator
    case _ => false
  }

  function Target(w: Directory, op: Op): StaffId
    requires TakesAdmin(w, op)
  {
    if op.RevokeRole? then w.grants[op.grant].staff else op.staff
  }

  /** After such a write, the administrators are those there were but its target. */
  lemma AllButTheTarget(w: Directory, op: Op, g: GrantId)
    requires WellScoped(w) && Distinct(w.grants) && TakesAdmin(w, op)
    ensures HoldsAdmin(Unguarded(w, op), g) <==> HoldsAdmin(w, g) && w.grants[g].staff != Target(w, op)
  {
    hide Lower, LocalSubject;
    match op
    case UpdateStaff(id, name, _, _) =>
    case DeleteStaff(id) => hide WellScoped, Distinct;
    case RevokeRole(id) =>
      assert HoldsAdmin(w, g) && w.grants[g].staff == w.grants[id].staff ==> w.grants[g] == w.grants[id];
  }

  /** A disabling, deletion or revocation that is written after its guard passed,
      whatever happened in between: someone active can still administer exactly when
      the guard would pass again at the moment of the write. */
  lemma LateWriteIff(w: Directory, op: Op)
    requires Inv(w) && TakesAdmin(w, op)
    ensures ActiveAdmin(Unguarded(w, op)) <==> OtherAdmins(w, Target(w, op))
  {
    hide WellScoped, NothingDangles, IdentitiesApart, Distinct, HoldsAdmin, Unguarded, Target;
    forall g
      ensures HoldsAdmin(Unguarded(w, op), g)
         <==> HoldsAdmin(w, g) && g in w.grants && w.grants[g].staff != Target(w, op)
    {
      AllButTheTarget(w, op, g);
      HoldersHaveGrants(w, g);
    }
  }

  lemma HoldersHaveGrants(w: Directory, g: GrantId)
    ensures HoldsAdmin(w, g) ==> g in w.grants
  {
  }

  /** An edit of staff row `id` as it was loaded, saved to the directory as it is now. */
  function LateUpdate(w: Directory, id: StaffId, loaded: StaffUser, name: Option<string>, email: Option<string>,
                      status: Option<AccountStatus>): Directory
  {
    w.(staff := w.staff[id := Restatused(Renamed(loaded, name, email), status)])
  }

  predicate GrantedAdmin(w: Directory, id: StaffId) {
    exists g <- w.grants :: w.grants[g].staff == id && w.grants[g].role == Administrator
  }

  /** Any edit of a staff row, a rename as well as a disabling, saved some time after
      the row was loaded: someone active can still administer exactly when there is
      somebody else by then, or the row it writes is an active one with a grant of
      ADMIN. That the row was made active in between does not help. */
  lemma LateSaveIff(w: Directory, id: StaffId, loaded: StaffUser, name: Option<string>, email: Option<string>,
                    status: Option<AccountStatus>)
    requires Inv(w) && id in w.staff
    ensures ActiveAdmin(LateUpdate(w, id, loaded, name, email, status))
       <==> OtherAdmins(w, id) || (OrElse(status, loaded.status) == Active && GrantedAdmin(w, id))
  {
    hide WellScoped, NothingDangles, NothingTwice, Lower, LocalSubject;
    var t := LateUpdate(w, id, loaded, name, email, status);
    assert t.staff[id].status == OrElse(status, loaded.status);
    hide LateUpdate, Renamed, Restatused;
    if OtherAdmins(w, id) {
      OthersStay(w, t, id);
    } else if OrElse(status, loaded.status) == Active && GrantedAdmin(w, id) {
      var g :| g in w.grants && w.grants[g].staff == id && w.grants[g].role == Administrator;
      assert HoldsAdmin(t, g);
    }
  }

  /** From `w`, a rename of `b` is loaded, `a` enables `b`, `b` disables `a`, all of
      them accepted, the rename without a guard to pass; then the rename is saved,
      and nobody is left. */
  ghost predicate RenameLocksOut(w: Directory, a: StaffId, b: StaffId, name: string)
    requires b in w.staff
  {
    var enabled := Next(w, a, Enable(b));
    var alone := Next(enabled, b, Disable(a));
    && Apply(w, a, Rename(b, name)) == Done(LateUpdate(w, b, w.staff[b], Some(name), None, None))
    && Apply(w, a, Enable(b)).Done? && Apply(enabled, b, Disable(a)).Done?
    && !ActiveAdmin(LateUpdate(alone, b, w.staff[b], Some(name), None, None))
  }

  /** A mere rename, loaded while its target is disabled, can lock everyone out. */
  lemma StaleRenameLocksOut()
    ensures exists w: Directory, a: StaffId, b: StaffId, name: string ::
              Inv(w) && a in w.staff && b in w.staff && w.staff[b].status == Disabled && RenameLocksOut(w, a, b, name)
  {
    TwoAdminsFine();
    var two := TwoAdmins();
    assert two.staff.Keys == {0, 1} && two.staff[0].status == Active && two.staff[1].status == Active;
    hide *;
    OneIsDisabled(two);
    EnabledThenDisabled(Next(two, 0, Disable(1)), "C");
  }

  lemma OneIsDisabled(two: Directory)
    requires Inv(two) && two.staff.Keys == {0, 1} && two.staff[0].status == Active && two.staff[1].status == Active
    requires two.grants == map[0 := StaffGrant(0, Administrator, None), 1 := StaffGrant(1, Administrator, None)]
    ensures var w := Next(two, 0, Disable(1));
            && Inv(w) && w.staff.Keys == {0, 1} && w.staff[0].status == Active && w.staff[1].status == Disabled
            && w.grants == two.grants
  {
    hide Inv, Apply, Next, Restatused;
    OpKeeps(two, 0, Disable(1));
    assert HoldsAdmin(two, 0);
    StatusChanges(two, 0, 1, Disabled);
  }

  lemma EnabledThenDisabled(w: Directory, name: string)
    requires w.staff.Keys == {0, 1} && w.staff[0].status == Active && w.staff[1].status == Disabled
    requires w.grants == map[0 := StaffGrant(0, Administrator, None), 1 := StaffGrant(1, Administrator, None)]
    ensures RenameLocksOut(w, 0, 1, name)
  {
    hide Apply, LateUpdate, Restatused;
    RenameIsUnguarded(w, 0, 1, name);
    StatusChanges(w, 0, 1, Active);
    var w1 := Next(w, 0, Enable(1));
    assert HoldsAdmin(w1, 1);
    StatusChanges(w1, 1, 0, Disabled);
    NobodyIsLeft(Next(w1, 1, Disable(0)), 1, w.staff[1], name);
  }

  lemma StatusChanges(w: Directory, admin: StaffId, id: StaffId, status: AccountStatus)
    requires id in w.staff && w.staff[id].status != status && (status == Disabled ==> id != admin && OtherAdmins(w, id))
    ensures var op := if status == Disabled then Disable(id) else Enable(id);
            && Apply(w, admin, op).Done?
            && Next(w, admin, op) == w.(staff := w.staff[id := Restatused(w.staff[id], Some(status))])
            && Restatused(w.staff[id], Some(status)).status == status
  {
  }

  lemma RenameIsUnguarded(w: Directory, admin: StaffId, id: StaffId, name: string)
    requires id in w.staff
    ensures Apply(w, admin, Rename(id, name)) == Done(LateUpdate(w, id, w.staff[id], Some(name), None, None))
  {
  }

  lemma NobodyIsLeft(w: Directory, id: StaffId, loaded: StaffUser, name: string)
    requires w.staff.Keys == {0, 1} && id in w.staff && loaded.status == Disabled
    requires forall s <- w.staff :: s != id ==> w.staff[s].status == Disabled
    ensures !ActiveAdmin(LateUpdate(w, id, loaded, Some(name), None, None))
  {
  }

  /** The guard and the write are separate statements. With two administrators, each
      disabling the other, both guards can pass before either write, and then
      nobody is left. */
  lemma TwoGuardsLockOut()
    ensures exists w: Directory, a: StaffId, b: StaffId ::
              && Inv(w) && a in w.staff && b in w.staff
              && Apply(w, b, Disable(a)).Done? && Apply(w, a, Disable(b)).Done?
              && a in Unguarded(w, Disable(b)).staff && !ActiveAdmin(Unguarded(Unguarded(w, Disable(b)), Disable(a)))
  {
    var w := TwoAdmins();
    TwoAdminsFine();
    hide Inv;
    assert Apply(w, 1, Disable(0)).Done? by { assert HoldsAdmin(w, 1); }
    assert Apply(w, 0, Disable(1)).Done? by { assert HoldsAdmin(w, 0); }
    var t := Unguarded(Unguarded(w, Disable(1)), Disable(0));
    assert t.staff[0].status == Disabled && t.staff[1].status == Disabled;
    assert !ActiveAdmin(t);
  }

  function Enable(id: StaffId): Op { UpdateStaff(id, None, None, Some(Active)) }

  function Rename(id: StaffId, name: string): Op { UpdateStaff(id, Some(name), None, None) }

  function Disable(id: StaffId): Op { UpdateStaff(id, None, None, Some(Disabled)) }

  function TwoAdmins(): Directory {
    Directory(map[0 := NewStaff("a@x", "A"), 1 := NewStaff("b@x", "B")],
          map[0 := StaffGrant(0, Administrator, None), 1 := StaffGrant(1, Administrator, None)], map[], map[])
  }

  lemma TwoAdminsFine()
    ensures Inv(TwoAdmins())
  {
    var w := TwoAdmins();
    assert HoldsAdmin(w, 0);
    assert w.staff[0].email[0] != w.staff[1].email[0];
    assert w.staff[0].subject[6] != w.staff[1].subject[6];
  }
}
