/** What each accepted operation of the administration does, when it is accepted, and
    what it leaves alone. */
module AdminEffects {
  import opened Basics
  import opened Access
  import opened Admin

  /** Somebody other than `id` can administer: an active account with an ADMIN grant. */
  ghost predicate SomeoneElse(w: Directory, id: StaffId) {
    exists g <- w.grants, s <- w.staff ::
      w.grants[g].staff == s && s != id && w.grants[g].role == Administrator && w.staff[s].status == Active
  }

  /** Some account other than `id` has the address, or the login made from it. */
  ghost predicate Taken(w: Directory, email: string, id: Option<StaffId>) {
    exists s <- w.staff :: Some(s) != id && (w.staff[s].email == email || w.staff[s].subject == "local:" + email)
  }

  /** When an operation is accepted. */
  ghost predicate Acceptable(w: Directory, admin: StaffId, op: Op) {
    match op
    case CreateStaff(_, email, _) => !Taken(w, Lower(email), None)
    case UpdateStaff(id, _, email, status) =>
      && id in w.staff
      && (status == Some(Disabled) && w.staff[id].status == Active ==> id != admin && SomeoneElse(w, id))
      && (email != None && Lower(email.value) != w.staff[id].email ==> !Taken(w, Lower(email.value), Some(id)))
    case DeleteStaff(id) => id in w.staff && id != admin && SomeoneElse(w, id)
    case AssignRole(_, staff, role, platform) =>
      && (role == FocalPoint ==> platform != None) && (role == Administrator ==> platform == None)
      && staff in w.staff && (platform != None ==> platform.value in w.platforms)
      && (forall g <- w.grants :: w.grants[g] != StaffGrant(staff, role, platform))
    case RevokeRole(g) =>
      g in w.grants && (w.grants[g].role == Administrator ==> SomeoneElse(w, w.grants[g].staff))
    case CreatePlatform(_, key) => forall p <- w.platforms :: w.platforms[p] != key
    case DeletePlatform(p) => p in w.platforms && forall i <- w.issues :: w.issues[i].platform != p
    case File(_, filed) =>
      filed.platform in w.platforms && (filed.assignee != None ==> filed.assignee.value in w.staff)
  }

  lemma OthersAre(w: Directory, id: StaffId)
    ensures OtherAdmins(w, id) <==> SomeoneElse(w, id)
  {
    if OtherAdmins(w, id) {
      var g :| g in w.grants && HoldsAdmin(w, g) && w.grants[g].staff != id;
      assert w.grants[g].staff in w.staff;
    }
    if g, s :| g in w.grants && s in w.staff && w.grants[g].staff == s && s != id
               && w.grants[g].role == Administrator && w.staff[s].status == Active {
      assert HoldsAdmin(w, g);
    }
  }

  lemma TakenIs(w: Directory, email: string, id: Option<StaffId>)
    ensures EmailTaken(w, email, id) <==> Taken(w, email, id)
  {
  }

  /** An operation is accepted exactly when it is allowed, complete and clashes with
      nothing, and would not leave the system without an administrator. */
  lemma AcceptedIff(w: Directory, admin: StaffId, op: Op)
    ensures Apply(w, admin, op).Done? <==> Acceptable(w, admin, op)
  {
    match op
    case CreateStaff(_, email, _) => TakenIs(w, Lower(email), None);
    case UpdateStaff(id, _, email, _) =>
      OthersAre(w, id);
      if email.Some? {
        TakenIs(w, Lower(email.value), Some(id));
      }
      hide OtherAdmins, EmailTaken, SomeoneElse, Taken, Lower, Renamed, Restatused;
    case DeleteStaff(id) => OthersAre(w, id);
    case RevokeRole(g) =>
      if g in w.grants {
        OthersAre(w, w.grants[g].staff);
      }
    case _ =>
  }

  /** Why an operation is refused: the first thing that stands in its way. */
  ghost predicate Because(w: Directory, admin: StaffId, op: Op, e: Error) {
    match op
    case CreateStaff(_, email, _) => Taken(w, Lower(email), None) && e == Conflict
    case UpdateStaff(id, _, email, status) =>
      if id !in w.staff then e == NotFound
      else
        var disabling := status == Some(Disabled) && w.staff[id].status == Active;
        if disabling && id == admin then e == BadRequest
        else
          && e == Conflict
          && (|| (disabling && !SomeoneElse(w, id))
              || (email != None && Lower(email.value) != w.staff[id].email && Taken(w, Lower(email.value), Some(id))))
    case DeleteStaff(id) =>
      if id !in w.staff then e == NotFound
      else if id == admin then e == BadRequest
      else !SomeoneElse(w, id) && e == Conflict
    case AssignRole(_, staff, role, platform) =>
      if (role == FocalPoint && platform == None) || (role == Administrator && platform != None) then e == BadRequest
      else if staff !in w.staff || (platform != None && platform.value !in w.platforms) then e == NotFound
      else (exists g <- w.grants :: w.grants[g] == StaffGrant(staff, role, platform)) && e == Conflict
    case RevokeRole(g) =>
      if g !in w.grants then e == NotFound
      else w.grants[g].role == Administrator && !SomeoneElse(w, w.grants[g].staff) && e == Conflict
    case CreatePlatform(_, key) => (exists p <- w.platforms :: w.platforms[p] == key) && e == Conflict
    case DeletePlatform(p) =>
      if p !in w.platforms then e == NotFound
      else (exists i <- w.issues :: w.issues[i].platform == p) && e == Conflict
    case File(_, filed) =>
      && e == NotFound
      && (filed.platform !in w.platforms || (filed.assignee != None && filed.assignee.value !in w.staff))
  }

  /** An operation is refused with the reason that stands first in its way. */
  lemma RefusedBecause(w: Directory, admin: StaffId, op: Op, e: Error)
    ensures Apply(w, admin, op) == Refused(e) <==> Because(w, admin, op, e)
  {
    match op
    case CreateStaff(_, email, _) => TakenIs(w, Lower(email), None);
    case UpdateStaff(id, _, email, _) =>
      OthersAre(w, id);
      if email.Some? {
        TakenIs(w, Lower(email.value), Some(id));
      }
      hide OtherAdmins, EmailTaken, SomeoneElse, Taken, Lower, Renamed, Restatused;
    case DeleteStaff(id) => OthersAre(w, id);
    case RevokeRole(g) =>
      if g in w.grants {
        OthersAre(w, w.grants[g].staff);
      }
    case _ =>
  }

  /** What an accepted operation leaves: the row it is about as it was asked for, and
      everything else as it was, but for what goes with a deleted row. */
  ghost predicate Does(w: Directory, op: Op, t: Directory) {
    match op
    case CreateStaff(id, email, name) =>
      && t == w.(staff := t.staff) && id in t.staff && t.staff == w.staff[id := t.staff[id]]
      && t.staff[id].email == Lower(email) && t.staff[id].subject == "local:" + Lower(email)
      && t.staff[id].name == name && t.staff[id].status == Active && t.staff[id].tokenVersion == 1
    case UpdateStaff(id, name, email, status) =>
      && id in w.staff && id in t.staff && t == w.(staff := t.staff) && t.staff == w.staff[id := t.staff[id]]
      && var was, now := w.staff[id], t.staff[id];
         && now.name == OrElse(name, was.name) && now.status == OrElse(status, was.status)
         && now.email == (if email == None then was.email else Lower(email.value))
         && now.subject == (if now.email == was.email then was.subject else "local:" + now.email)
         && now.tokenVersion == was.tokenVersion + (if now.email != was.email then 1 else 0)
                                + (if was.status == Active && now.status == Disabled then 1 else 0)
    case DeleteStaff(id) =>
      && t.platforms == w.platforms && t.staff == w.staff - {id} && t.issues.Keys == w.issues.Keys
      && (forall g :: g in t.grants <==> g in w.grants && w.grants[g].staff != id)
      && (forall g <- t.grants :: t.grants[g] == w.grants[g])
      && (forall i <- w.issues :: t.issues[i] ==
            if w.issues[i].assignee == Some(id) then Filed(w.issues[i].platform, None) else w.issues[i])
    case AssignRole(id, staff, role, platform) => t == w.(grants := w.grants[id := StaffGrant(staff, role, platform)])
    case RevokeRole(id) => t == w.(grants := w.grants - {id})
    case CreatePlatform(id, key) => t == w.(platforms := w.platforms[id := key])
    case DeletePlatform(id) =>
      && t.staff == w.staff && t.issues == w.issues && t.platforms == w.platforms - {id}
      && (forall g :: g in t.grants <==> g in w.grants && w.grants[g].platform != Some(id))
      && (forall g <- t.grants :: t.grants[g] == w.grants[g])
    case File(issue, filed) => t == w.(issues := w.issues[issue := filed])
  }

  /** An accepted operation does what was asked for; a refused one changes nothing. */
  lemma OperationsDo(w: Directory, admin: StaffId, op: Op)
    ensures if Apply(w, admin, op).Done? then Does(w, op, Next(w, admin, op)) else Next(w, admin, op) == w
  {
    hide OtherAdmins, EmailTaken, Lower;
  }
}
