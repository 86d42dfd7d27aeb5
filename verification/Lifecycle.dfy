/** Issue rows, the edits their writers make, and the store those edits are saved
    to. An edit works on a row loaded earlier; saving it is a compare-and-set on
    the row's version; a blind update bumps the version of whatever is there. */
module Lifecycle {
  import opened Basics
  import opened Access

  /** Milliseconds on one clock. */
  type Time = real

  datatype Status = New | InProgress | OnHold | Resolved | Closed | Reopened

  datatype Priority = Low | Medium | High | Critical

  datatype Issue = Issue(
    platform: PlatformId, status: Status, priority: Priority, assignee: Option<StaffId>,
    duplicateOf: Option<IssueId>, resolvedAt: Option<Time>, closedAt: Option<Time>,
    slaStartedAt: Time, slaBreachedAt: Option<Time>, version: nat)

  // The names they have in queries, policies and the database.

  function StatusName(s: Status): string {
    match s
    case New => "NEW"
    case InProgress => "IN_PROGRESS"
    case OnHold => "ON_HOLD"
    case Resolved => "RESOLVED"
    case Closed => "CLOSED"
    case Reopened => "REOPENED"
  }

  function PriorityName(p: Priority): string {
    match p
    case Low => "LOW"
    case Medium => "MEDIUM"
    case High => "HIGH"
    case Critical => "CRITICAL"
  }

  // ---- Status machine ------------------------------------------------------

  const STATUS_TRANSITIONS: map<Status, seq<Status>> :=
    map[
      New := [InProgress, OnHold, Closed],
      InProgress := [OnHold, Resolved],
      OnHold := [InProgress, Closed],
      Resolved := [Closed, Reopened],
      Closed := [Reopened],
      Reopened := [InProgress]
    ]

  predicate CanTransition(from: Status, to: Status) {
    from in STATUS_TRANSITIONS && to in STATUS_TRANSITIONS[from]
  }

  /** The statuses that count as live work. */
  predicate IsOpen(s: Status) { s in {New, InProgress, OnHold, Reopened} }

  /** The timestamp, duplicate and SLA bookkeeping that goes with a change to
      status `to`. */
  function SideEffects(i: Issue, to: Status, now: Time): Issue {
    match to
    case Resolved => i.(resolvedAt := Some(now))
    case Closed => i.(closedAt := if i.closedAt.Some? then i.closedAt else Some(now))
    case Reopened =>
      i.(resolvedAt := None, closedAt := None, duplicateOf := None, slaStartedAt := now, slaBreachedAt := None)
    case _ => i
  }

  /** The local status an inbound Jira status stands for: leaving a terminal
      status is a reopening. */
  function ResolveTarget(from: Status, mapped: Status): Status {
    if mapped != Resolved && from in {Resolved, Closed} then Reopened else mapped
  }

  /** Jira's three stable status categories; anything else is ignored. */
  function CategoryStatus(key: string): Option<Status> {
    if key == "new" then Some(New)
    else if key == "indeterminate" then Some(InProgress)
    else if key == "done" then Some(Resolved)
    else None
  }

  /** What is looked up of a member of staff an issue is to be assigned to. */
  datatype Account = Account(active: bool, grants: seq<Grant>)

  // ---- Edits of one loaded row ---------------------------------------------

  datatype Refusal =
    | NotFound | VersionConflict | Forbidden | AlreadyInStatus | BadTransition | SamePriority
    | AssigneeInactive | AssigneeNotDeveloper | SelfMerge | OtherPlatform | AlreadyMerged
    | DuplicateClosed | CanonicalUnresolvable | CanonicalClosed | NothingToApply

  datatype Source = ByStaff | ByMerge | ByJira

  datatype Change =
    | Creation
    | StatusChange(from: Status, to: Status, source: Source)
    | PriorityChange(oldPriority: Priority, newPriority: Priority)
    | Assignment(oldAssignee: Option<StaffId>, newAssignee: Option<StaffId>)
    | Merging(canonical: IssueId)
    | Labelling(tag: nat)
    | Breach

  datatype Entry = Entry(issue: IssueId, change: Change)

  /** What a writer does to the row it loaded. `seen` is the version the author
      of a staff edit was looking at. */
  datatype Cmd =
    | SetStatus(actor: Staff, to: Status, seen: nat, focalPointCanTransition: bool, now: Time)
    | SetPriority(priority: Priority, seen: nat)
    | Assign(target: Option<StaffId>, account: Option<Account>, seen: nat)
    | JiraStatus(mapped: Status, now: Time)
    | CloseAsDuplicate(actor: Staff, canonical: IssueId, seen: nat, now: Time)

  datatype Edit = Edit(row: Issue, changes: seq<Change>)

  function ChangeStatusOf(i: Issue, to: Status, source: Source, now: Time): Edit {
    Edit(SideEffects(i.(status := to), to, now), [StatusChange(i.status, to, source)])
  }

  /** The in-memory part of a write: the checks on the loaded row, then the new
      row and its audit records. */
  function Decide(i: Issue, cmd: Cmd): Result<Edit, Refusal> {
    match cmd
    case SetStatus(actor, to, seen, focal, now) =>
      if seen != i.version then Err(VersionConflict)
      else if !CanAccess(actor.grants, i.platform, TransitionRoles(focal)) then Err(Forbidden)
      else if i.status == to then Err(AlreadyInStatus)
      else if !CanTransition(i.status, to) then Err(BadTransition)
      else Ok(ChangeStatusOf(i, to, ByStaff, now))
    case SetPriority(priority, seen) =>
      if seen != i.version then Err(VersionConflict)
      else if i.priority == priority then Err(SamePriority)
      else Ok(Edit(i.(priority := priority), [PriorityChange(i.priority, priority)]))
    case Assign(target, account, seen) =>
      if seen != i.version then Err(VersionConflict)
      else if target.Some? && (account.None? || !account.value.active) then Err(AssigneeInactive)
      else if target.Some? && !CanAccess(account.value.grants, i.platform, {Developer}) then Err(AssigneeNotDeveloper)
      else Ok(Edit(i.(assignee := target), [Assignment(i.assignee, target)]))
    case JiraStatus(mapped, now) =>
      var to := ResolveTarget(i.status, mapped);
      if i.status == to then Err(NothingToApply) else Ok(ChangeStatusOf(i, to, ByJira, now))
    case CloseAsDuplicate(actor, canonical, seen, now) =>
      if i.duplicateOf.Some? then Err(AlreadyMerged)
      else if i.status == Closed then Err(DuplicateClosed)
      else if seen != i.version then Err(VersionConflict)
      else Ok(Edit(
        i.(duplicateOf := Some(canonical), status := Closed,
           closedAt := if i.closedAt.Some? then i.closedAt else Some(now)),
        [Merging(canonical), StatusChange(i.status, Closed, ByMerge)]))
  }

  // ---- The store -----------------------------------------------------------

  datatype NoteKind = ClosedAsDuplicate | MergedHere(duplicate: IssueId) | ProblemResolved

  /** A comment the merge code writes; nobody is the author of an automatic one. */
  datatype Note = Note(issue: IssueId, author: Option<StaffId>, kind: NoteKind)

  datatype World = World(
    issues: map<IssueId, Issue>, audit: seq<Entry>,
    duplicateLinks: set<(IssueId, IssueId)>, watchers: set<(IssueId, StaffId)>, notes: seq<Note>)

  function Entries(id: IssueId, changes: seq<Change>): (r: seq<Entry>)
    ensures |r| == |changes|
    ensures forall k :: 0 <= k < |changes| ==> r[k] == Entry(id, changes[k])
  {
    seq(|changes|, k requires 0 <= k < |changes| => Entry(id, changes[k]))
  }

  /** The rows a merge writes beside the issue itself, in the same transaction. */
  function Aftermath(w: World, id: IssueId, cmd: Cmd): World {
    match cmd
    case CloseAsDuplicate(actor, canonical, _, _) =>
      w.(duplicateLinks := w.duplicateLinks + {(id, canonical)},
         watchers := w.watchers + (set p | p in w.watchers && p.0 == id :: (canonical, p.1)),
         notes := w.notes + [
           Note(id, Some(actor.id), ClosedAsDuplicate), Note(canonical, Some(actor.id), MergedHere(id))])
    case _ => w
  }

  /** Saves an edited row: a compare-and-set on the version it was loaded with,
      in one transaction with its audit records. */
  function Save(w: World, id: IssueId, loadedVersion: nat, edit: Edit): Option<World> {
    if id in w.issues && w.issues[id].version == loadedVersion then
      Some(w.(issues := w.issues[id := edit.row.(version := loadedVersion + 1)],
              audit := w.audit + Entries(id, edit.changes)))
    else None
  }

  /** Decides on the row as it was loaded and saves the outcome to the store as
      it is now. */
  function Commit(w: World, id: IssueId, loaded: Issue, cmd: Cmd): (World, Option<Refusal>) {
    match Decide(loaded, cmd)
    case Err(e) => (w, Some(e))
    case Ok(edit) =>
      match Save(w, id, loaded.version, edit)
      case None => (w, Some(VersionConflict))
      case Some(w') => (Aftermath(w', id, cmd), None)
  }

  /** The same with nothing in between: the row is loaded and saved at once. */
  function EditNow(w: World, id: IssueId, cmd: Cmd): (World, Option<Refusal>) {
    if id !in w.issues then (w, Some(NotFound)) else Commit(w, id, w.issues[id], cmd)
  }

  /** Updates that do not look at the version. `from` is what the writer had in
      memory. */
  datatype Blind =
    | WritePriority(from: Priority, priority: Priority)
    | WriteAssignee(oldAssignee: Option<StaffId>, assignee: StaffId)
    | AddLabel(tag: nat)
    | MarkBreached(now: Time)
    | Touch

  predicate Affects(w: World, id: IssueId, b: Blind) {
    id in w.issues && (b.MarkBreached? ==> w.issues[id].slaBreachedAt.None?)
  }

  function BlindRow(i: Issue, b: Blind): Issue {
    match b
    case WritePriority(_, p) => i.(priority := p, version := i.version + 1)
    case WriteAssignee(_, a) => i.(assignee := Some(a), version := i.version + 1)
    case AddLabel(_) => i
    case MarkBreached(now) => i.(slaBreachedAt := Some(now), version := i.version + 1)
    case Touch => i.(version := i.version + 1)
  }

  function BlindChanges(b: Blind): seq<Change> {
    match b
    case WritePriority(from, p) => [PriorityChange(from, p)]
    case WriteAssignee(from, a) => [Assignment(from, Some(a))]
    case AddLabel(l) => [Labelling(l)]
    case MarkBreached(_) => [Breach]
    case Touch => []
  }

  function Write(w: World, id: IssueId, b: Blind): World {
    if !Affects(w, id, b) then w
    else w.(issues := w.issues[id := BlindRow(w.issues[id], b)],
            audit := w.audit + Entries(id, BlindChanges(b)))
  }

  function NewIssue(platform: PlatformId, now: Time): Issue {
    Issue(platform, New, Medium, None, None, None, None, now, None, 1)
  }

  function Create(w: World, id: IssueId, platform: PlatformId, now: Time): World {
    if id in w.issues then w
    else w.(issues := w.issues[id := NewIssue(platform, now)], audit := w.audit + [Entry(id, Creation)])
  }

  const EMPTY_WORLD := World(map[], [], {}, {}, [])
}
