/** The administration service over its tables. */
module AdminService {
  import opened Basics
  import opened Access
  import opened Admin

  class Service {
    var staff: map<StaffId, StaffUser>
    var grants: map<GrantId, StaffGrant>
    var platforms: map<PlatformId, string>
    var issues: map<IssueId, Filed>

    function Now(): Directory
      reads this
    {
      Directory(staff, grants, platforms, issues)
    }

    constructor (w: Directory)
      ensures Now() == w
    {
      staff, grants, platforms, issues := w.staff, w.grants, w.platforms, w.issues;
    }

    method AssertNotLastAdmin(id: StaffId) returns (error: Option<Error>)
      ensures error == if OtherAdmins(Now(), id) then None else Some(Conflict)
    {
      var others := set g | g in grants && HoldsAdmin(Now(), g) && grants[g].staff != id;
      assert forall g <- grants :: HoldsAdmin(Now(), g) && grants[g].staff != id <==> g in others;
      if others == {} { return Some(Conflict); }
      var g :| g in others;
      assert HoldsAdmin(Now(), g);
      return None;
    }

    /** Edits the row it loaded, field by field, and saves it. */
    method UpdateStaff(admin: StaffId, id: StaffId, name: Option<string>, email: Option<string>,
                       status: Option<AccountStatus>)
      returns (error: Option<Error>)
      modifies this
      ensures Now() == Next(old(Now()), admin, Op.UpdateStaff(id, name, email, status))
      ensures Reported(old(Now()), admin, Op.UpdateStaff(id, name, email, status), error)
    {
      hide OtherAdmins, Lower;
      if id !in staff { return Some(NotFound); }
      var user := staff[id];
      if status == Some(Disabled) && user.status != Disabled {
        if id == admin { return Some(BadRequest); }
        var last := AssertNotLastAdmin(id);
        if last.Some? { return last; }
      }
      if name.Some? { user := user.(name := name.value); }
      if email.Some? && Lower(email.value) != user.email {
        var address := Lower(email.value);
        if EmailTaken(Now(), address, Some(id)) { return Some(Conflict); }
        user := user.(email := address);
        user := user.(subject := LocalSubject(address));
        user := user.(tokenVersion := user.tokenVersion + 1);
      }
      hide EmailTaken;
      if status.Some? && status.value != user.status {
        user := user.(status := status.value);
        if status.value == Disabled {
          user := user.(tokenVersion := user.tokenVersion + 1);
        }
      }
      staff := staff[id := user];
      return None;
    }

    method CreateStaff(admin: StaffId, id: StaffId, email: string, name: string) returns (error: Option<Error>)
      requires id !in staff
      modifies this
      ensures Now() == Next(old(Now()), admin, Op.CreateStaff(id, email, name))
      ensures Reported(old(Now()), admin, Op.CreateStaff(id, email, name), error)
    {
      var address := Lower(email);
      hide Lower;
      if EmailTaken(Now(), address, None) { return Some(Conflict); }
      staff := staff[id := StaffUser(LocalSubject(address), address, name, Active, 1)];
      return None;
    }

    method DeleteStaff(admin: StaffId, id: StaffId) returns (error: Option<Error>)
      modifies this
      ensures Now() == Next(old(Now()), admin, Op.DeleteStaff(id))
      ensures Reported(old(Now()), admin, Op.DeleteStaff(id), error)
    {
      hide OtherAdmins;
      if id !in staff { return Some(NotFound); }
      if id == admin { return Some(BadRequest); }
      var last := AssertNotLastAdmin(id);
      if last.Some? { return last; }
      // Removing the row; the store cascades to what refers to it.
      grants := map g | g in grants && grants[g].staff != id :: grants[g];
      issues := map i | i in issues ::
                  if issues[i].assignee == Some(id) then issues[i].(assignee := None) else issues[i];
      staff := staff - {id};
      return None;
    }

    method AssignRole(admin: StaffId, id: GrantId, user: StaffId, role: Role, platform: Option<PlatformId>)
      returns (error: Option<Error>)
      requires id !in grants
      modifies this
      ensures Now() == Next(old(Now()), admin, Op.AssignRole(id, user, role, platform))
      ensures Reported(old(Now()), admin, Op.AssignRole(id, user, role, platform), error)
    {
      if role == FocalPoint && platform.None? { return Some(BadRequest); }
      if role == Administrator && platform.Some? { return Some(BadRequest); }
      if user !in staff { return Some(NotFound); }
      if platform.Some? && platform.value !in platforms { return Some(NotFound); }
      if exists g <- grants :: grants[g] == StaffGrant(user, role, platform) { return Some(Conflict); }
      grants := grants[id := StaffGrant(user, role, platform)];
      return None;
    }

    method RevokeRole(admin: StaffId, id: GrantId) returns (error: Option<Error>)
      modifies this
      ensures Now() == Next(old(Now()), admin, Op.RevokeRole(id))
      ensures Reported(old(Now()), admin, Op.RevokeRole(id), error)
    {
      hide OtherAdmins;
      if id !in grants { return Some(NotFound); }
      var grant := grants[id];
      if grant.role == Administrator {
        var last := AssertNotLastAdmin(grant.staff);
        if last.Some? { return last; }
      }
      grants := grants - {id};
      return None;
    }

    method DeletePlatform(admin: StaffId, id: PlatformId) returns (error: Option<Error>)
      modifies this
      ensures Now() == Next(old(Now()), admin, Op.DeletePlatform(id))
      ensures Reported(old(Now()), admin, Op.DeletePlatform(id), error)
    {
      if id !in platforms { return Some(NotFound); }
      if exists i <- issues :: issues[i].platform == id { return Some(Conflict); }
      grants := map g | g in grants && grants[g].platform != Some(id) :: grants[g];
      platforms := platforms - {id};
      return None;
    }
  }

  /** The error raised is the one the operation is refused with, if it is. */
  predicate Reported(w: Directory, admin: StaffId, op: Op, error: Option<Error>) {
    match Apply(w, admin, op)
    case Done(_) => error == None
    case Refused(e) => error == Some(e)
  }
}
