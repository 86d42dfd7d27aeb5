/** Who is who and who may do what: the ids and the roles that the issue services
    and the administration share. */
module Access {
  import opened Basics

  type IssueId = nat
  type PlatformId = nat
  type StaffId = nat

  datatype Role = FocalPoint | Developer | Administrator | Watcher

  /** A grant of a role, global when the platform is None. */
  datatype Grant = Grant(role: Role, platform: Option<PlatformId>)

  /** A signed-in member of staff. */
  datatype Staff = Staff(id: StaffId, grants: seq<Grant>)

  const WRITE_ROLES := {FocalPoint, Developer, Administrator}

  predicate CanAccess(grants: seq<Grant>, platform: PlatformId, roles: set<Role>) {
    exists k :: 0 <= k < |grants| && grants[k].role in roles
             && (grants[k].platform.None? || grants[k].platform == Some(platform))
  }

  function TransitionRoles(focalPointCanTransition: bool): set<Role> {
    if focalPointCanTransition then {Developer, Administrator, FocalPoint} else {Developer, Administrator}
  }
}
