/** The services that write issues, over a database of rows and issue objects
    loaded from it. Each method is proved to make the state change that Lifecycle,
    Duplicates and IssueOperations describe. */
module IssueServices {
  import opened Basics
  import opened Access
  import opened Lifecycle
  import opened LifecycleInvariants
  import opened Duplicates
  import opened IssueOperations

  /** An issue in memory, as loaded: a writer changes its fields, then saves it. */
  class IssueEntity {
    const id: IssueId
    const platform: PlatformId
    var status: Status
    var priority: Priority
    var assignee: Option<StaffId>
    var duplicateOf: Option<IssueId>
    var resolvedAt: Option<Time>
    var closedAt: Option<Time>
    var slaStartedAt: Time
    var slaBreachedAt: Option<Time>
    var version: nat

    function Row(): Issue
      reads this
    {
      Issue(platform, status, priority, assignee, duplicateOf, resolvedAt, closedAt, slaStartedAt,
            slaBreachedAt, version)
    }

    constructor (id: IssueId, row: Issue)
      ensures this.id == id && Row() == row
    {
      this.id, platform := id, row.platform;
      status, priority, assignee, duplicateOf := row.status, row.priority, row.assignee, row.duplicateOf;
      resolvedAt, closedAt := row.resolvedAt, row.closedAt;
      slaStartedAt, slaBreachedAt, version := row.slaStartedAt, row.slaBreachedAt, row.version;
    }

    method ApplyStatusSideEffects(to: Status, now: Time)
      modifies this
      ensures Row() == SideEffects(old(Row()), to, now)
    {
      if to == Resolved {
        resolvedAt := Some(now);
      } else if to == Closed {
        closedAt := if closedAt.Some? then closedAt else Some(now);
      } else if to == Reopened {
        resolvedAt := None;
        closedAt := None;
        duplicateOf := None;
        slaStartedAt := now;
        slaBreachedAt := None;
      }
    }
  }

  class Database {
    var issues: map<IssueId, Issue>
    var audit: seq<Entry>
    var duplicateLinks: set<(IssueId, IssueId)>
    var watchers: set<(IssueId, StaffId)>
    var notes: seq<Note>

    function Contents(): World
      reads this
    {
      World(issues, audit, duplicateLinks, watchers, notes)
    }

    constructor ()
      ensures Contents() == EMPTY_WORLD
    {
      issues, audit, duplicateLinks, watchers, notes := map[], [], {}, {}, [];
    }

    method FindOne(id: IssueId) returns (r: Option<IssueEntity>)
      ensures r.Some? <==> id in issues
      ensures r.Some? ==> fresh(r.value) && r.value.id == id && r.value.Row() == issues[id]
    {
      if id !in issues {
        return None;
      }
      var entity := new IssueEntity(id, issues[id]);
      return Some(entity);
    }

    /** Saves an edited issue and its audit records in one transaction, unless the
        row has moved on since it was loaded. */
    method SaveIssue(entity: IssueEntity, changes: seq<Change>) returns (saved: bool)
      modifies this, entity`version
      ensures var after := Save(old(Contents()), entity.id, old(entity.version), Edit(old(entity.Row()), changes));
              && saved == after.Some?
              && Contents() == if saved then after.value else old(Contents())
    {
      if entity.id !in issues || issues[entity.id].version != entity.version {
        return false;
      }
      entity.version := entity.version + 1;
      issues := issues[entity.id := entity.Row()];
      audit := audit + Entries(entity.id, changes);
      return true;
    }

    /** A query-builder update: whatever row is there, one version on. */
    method UpdateIssue(id: IssueId, b: Blind) returns (affected: bool)
      modifies this
      ensures affected == Affects(old(Contents()), id, b)
      ensures Contents() == Write(old(Contents()), id, b)
    {
      affected := id in issues && (b.MarkBreached? ==> issues[id].slaBreachedAt.None?);
      if affected {
        issues := issues[id := BlindRow(issues[id], b)];
        audit := audit + Entries(id, BlindChanges(b));
      }
    }

    /** The ids of `pool` whose row satisfies `wanted`, in whatever order. */
    method FindIds(wanted: Issue -> bool) returns (ids: seq<IssueId>)
      ensures forall j, k :: 0 <= j < k < |ids| ==> ids[j] != ids[k]
      ensures forall id :: id in ids <==> id in issues && wanted(issues[id])
    {
      ids := [];
      var rest := issues.Keys;
      while rest != {}
        invariant rest <= issues.Keys
        invariant forall j, k :: 0 <= j < k < |ids| ==> ids[j] != ids[k]
        invariant forall id :: id in ids <==> id in issues && id !in rest && wanted(issues[id])
        decreases |rest|
      {
        var id :| id in rest;
        if wanted(issues[id]) {
          ids := ids + [id];
        }
        rest := rest - {id};
      }
    }
  }

  // ---- Staff edits ---------------------------------------------------------

  /** Works on an issue loaded earlier; the database may have moved on since. */
  method ApplyStatus(db: Database, staff: Staff, issue: IssueEntity, to: Status, version: nat, focal: bool, now: Time)
    returns (refusal: Option<Refusal>)
    modifies db, issue
    ensures (db.Contents(), refusal) ==
            Commit(old(db.Contents()), issue.id, old(issue.Row()), SetStatus(staff, to, version, focal, now))
  {
    if version != issue.version {
      return Some(VersionConflict);
    }
    if !CanAccess(staff.grants, issue.platform, TransitionRoles(focal)) {
      return Some(Forbidden);
    }
    if issue.status == to {
      return Some(AlreadyInStatus);
    }
    if !CanTransition(issue.status, to) {
      return Some(BadTransition);
    }
    var from := issue.status;
    issue.status := to;
    issue.ApplyStatusSideEffects(to, now);
    var saved := db.SaveIssue(issue, [StatusChange(from, to, ByStaff)]);
    refusal := if saved then None else Some(VersionConflict);
  }

  method ApplyPriority(db: Database, issue: IssueEntity, priority: Priority, version: nat)
    returns (refusal: Option<Refusal>)
    modifies db, issue
    ensures (db.Contents(), refusal) ==
            Commit(old(db.Contents()), issue.id, old(issue.Row()), SetPriority(priority, version))
  {
    if version != issue.version {
      return Some(VersionConflict);
    }
    var from := issue.priority;
    if from == priority {
      return Some(SamePriority);
    }
    issue.priority := priority;
    var saved := db.SaveIssue(issue, [PriorityChange(from, priority)]);
    refusal := if saved then None else Some(VersionConflict);
  }

  method ApplyAssignment(db: Database, issue: IssueEntity, target: Option<StaffId>, account: Option<Account>,
                         version: nat)
    returns (refusal: Option<Refusal>)
    modifies db, issue
    ensures (db.Contents(), refusal) ==
            Commit(old(db.Contents()), issue.id, old(issue.Row()), Assign(target, account, version))
  {
    if version != issue.version {
      return Some(VersionConflict);
    }
    var from := issue.assignee;
    if target.Some? {
      if account.None? || !account.value.active {
        return Some(AssigneeInactive);
      }
      if !CanAccess(account.value.grants, issue.platform, {Developer}) {
        return Some(AssigneeNotDeveloper);
      }
    }
    issue.assignee := target;
    var saved := db.SaveIssue(issue, [Assignment(from, target)]);
    refusal := if saved then None else Some(VersionConflict);
  }

  method ChangeStatus(db: Database, staff: Staff, id: IssueId, to: Status, version: nat, focal: bool, now: Time)
    returns (refusal: Option<Refusal>)
    modifies db
    ensures (db.Contents(), refusal) == EditNow(old(db.Contents()), id, SetStatus(staff, to, version, focal, now))
    ensures db.Contents() == Serve(old(db.Contents()), StaffEdit(id, SetStatus(staff, to, version, focal, now)))
  {
    var issue := db.FindOne(id);
    if issue.None? {
      return Some(NotFound);
    }
    refusal := ApplyStatus(db, staff, issue.value, to, version, focal, now);
  }

  method ChangePriority(db: Database, id: IssueId, priority: Priority, version: nat) returns (refusal: Option<Refusal>)
    modifies db
    ensures (db.Contents(), refusal) == EditNow(old(db.Contents()), id, SetPriority(priority, version))
    ensures db.Contents() == Serve(old(db.Contents()), StaffEdit(id, SetPriority(priority, version)))
  {
    var issue := db.FindOne(id);
    if issue.None? {
      return Some(NotFound);
    }
    refusal := ApplyPriority(db, issue.value, priority, version);
  }

  method ChangeAssignment(db: Database, id: IssueId, target: Option<StaffId>, account: Option<Account>, version: nat)
    returns (refusal: Option<Refusal>)
    modifies db
    ensures (db.Contents(), refusal) == EditNow(old(db.Contents()), id, Assign(target, account, version))
    ensures db.Contents() == Serve(old(db.Contents()), StaffEdit(id, Assign(target, account, version)))
  {
    var issue := db.FindOne(id);
    if issue.None? {
      return Some(NotFound);
    }
    refusal := ApplyAssignment(db, issue.value, target, account, version);
  }

  // ---- Bulk edits ----------------------------------------------------------

  method BulkStep(db: Database, staff: Staff, id: IssueId, op: BulkOp, focal: bool, now: Time)
    returns (outcome: Option<SkipReason>)
    modifies db
    ensures (db.Contents(), outcome) == BulkOne(old(db.Contents()), staff, id, op, focal, now)
  {
    var found := db.FindOne(id);
    if found.None? {
      return Some(NotVisible);
    }
    var issue := found.value;
    if !CanAccess(staff.grants, issue.platform, WRITE_ROLES) {
      return Some(NotVisible);
    }
    var refusal: Option<Refusal>;
    match op {
      case BulkStatus(to) => refusal := ApplyStatus(db, staff, issue, to, issue.version, focal, now);
      case BulkPriority(p) => refusal := ApplyPriority(db, issue, p, issue.version);
      case BulkAssignee(target, account) => refusal := ApplyAssignment(db, issue, target, account, issue.version);
    }
    outcome := if refusal.None? then None else Some(Refused(refusal.value));
  }

  /** Applies one change to many issues; one that fails is reported as skipped
      and does not stop the rest. */
  method BulkUpdate(db: Database, staff: Staff, ids: seq<IssueId>, op: BulkOp, focal: bool, now: Time)
    returns (report: BulkReport)
    modifies db
    ensures (db.Contents(), report) == BulkRun(old(db.Contents()), staff, ids, op, focal, now)
    ensures db.Contents() == Serve(old(db.Contents()), BulkEdit(staff, ids, op, focal, now))
  {
    var updated := 0;
    var skipped: seq<(IssueId, SkipReason)> := [];
    assert ids[..0] == [];
    for i := 0 to |ids|
      invariant (db.Contents(), BulkReport(updated, skipped)) ==
                BulkRun(old(db.Contents()), staff, ids[..i], op, focal, now)
    {
      assert ids[..i + 1][..i] == ids[..i];
      var outcome := BulkStep(db, staff, ids[i], op, focal, now);
      if outcome.None? {
        updated := updated + 1;
      } else {
        skipped := skipped + [(ids[i], outcome.value)];
      }
    }
    assert ids[..|ids|] == ids;
    report := BulkReport(updated, skipped);
  }

  // ---- Merging -------------------------------------------------------------

  /** The writes of one merge transaction. */
  method CloseDuplicate(db: Database, staff: Staff, duplicate: IssueEntity, canonical: IssueId, seen: nat, now: Time)
    returns (refusal: Option<Refusal>)
    requires duplicate.duplicateOf.None? && duplicate.status != Closed && seen == duplicate.version
    modifies db, duplicate
    ensures (db.Contents(), refusal) ==
            Commit(old(db.Contents()), duplicate.id, old(duplicate.Row()),
                   CloseAsDuplicate(staff, canonical, seen, now))
  {
    var from := duplicate.status;
    ghost var cmd := CloseAsDuplicate(staff, canonical, seen, now);
    ghost var edit := Decide(duplicate.Row(), cmd);
    duplicate.duplicateOf := Some(canonical);
    duplicate.status := Closed;
    duplicate.closedAt := if duplicate.closedAt.Some? then duplicate.closedAt else Some(now);
    assert edit == Ok(Edit(duplicate.Row(), [Merging(canonical), StatusChange(from, Closed, ByMerge)]));
    hide Decide;
    var saved := db.SaveIssue(duplicate, [Merging(canonical), StatusChange(from, Closed, ByMerge)]);
    if !saved {
      return Some(VersionConflict);
    }
    ghost var afterSave := db.Contents();
    db.duplicateLinks := db.duplicateLinks + {(duplicate.id, canonical)};
    db.watchers := db.watchers + (set p | p in db.watchers && p.0 == duplicate.id :: (canonical, p.1));
    ghost var before := db.notes;
    var closing, merging :=
      Note(duplicate.id, Some(staff.id), ClosedAsDuplicate), Note(canonical, Some(staff.id), MergedHere(duplicate.id));
    db.notes := db.notes + [closing];
    db.notes := db.notes + [merging];
    assert db.notes == before + [closing, merging];
    assert db.Contents() == Aftermath(afterSave, duplicate.id, cmd);
    refusal := None;
  }

  method MergeIssues(db: Database, staff: Staff, id: IssueId, canonicalId: IssueId, version: nat, now: Time)
    returns (r: Result<IssueId, Refusal>)
    modifies db
    ensures var (w, refusal) := Merge(old(db.Contents()), staff, id, canonicalId, version, now);
            && db.Contents() == w
            && (r.Err? <==> refusal.Some?) && (r.Err? ==> r.error == refusal.value)
            && (r.Ok? ==> MergeTarget(old(db.Contents()), id, canonicalId, version) == r)
    ensures db.Contents() == Serve(old(db.Contents()), MergeInto(staff, id, canonicalId, version, now))
  {
    if id == canonicalId {
      return Err(SelfMerge);
    }
    var duplicate := db.FindOne(id);
    var canonical := db.FindOne(canonicalId);
    if duplicate.None? || canonical.None? {
      return Err(NotFound);
    }
    if duplicate.value.platform != canonical.value.platform {
      return Err(OtherPlatform);
    }
    if duplicate.value.duplicateOf.Some? {
      return Err(AlreadyMerged);
    }
    if duplicate.value.status == Closed {
      return Err(DuplicateClosed);
    }
    if version != duplicate.value.version {
      return Err(VersionConflict);
    }
    if canonical.value.duplicateOf.Some? {
      canonical := db.FindOne(canonical.value.duplicateOf.value);
      if canonical.None? || canonical.value.duplicateOf.Some? {
        return Err(CanonicalUnresolvable);
      }
      if canonical.value.id == duplicate.value.id {
        return Err(SelfMerge);
      }
    }
    if canonical.value.status == Closed {
      return Err(CanonicalClosed);
    }
    var refusal := CloseDuplicate(db, staff, duplicate.value, canonical.value.id, version, now);
    r := if refusal.None? then Ok(canonical.value.id) else Err(refusal.value);
  }

  /** When an issue is resolved, every issue merged into it is told. */
  method OnCanonicalStatusChanged(db: Database, id: IssueId, to: Status) returns (told: seq<IssueId>)
    modifies db
    ensures to != Resolved ==> told == []
    ensures to == Resolved ==> forall d :: d in told <==> DirectDuplicate(old(db.issues), d, id)
    ensures forall j, k :: 0 <= j < k < |told| ==> told[j] != told[k]
    ensures db.Contents() == TellAll(old(db.Contents()), told)
    ensures db.Contents() == Serve(old(db.Contents()), FanOut(told))
  {
    told := [];
    if to != Resolved {
      return;
    }
    var duplicates := db.FindIds((i: Issue) => i.duplicateOf == Some(id));
    for k := 0 to |duplicates|
      invariant told == duplicates[..k]
      invariant db.Contents() == TellAll(old(db.Contents()), told)
    {
      var d := duplicates[k];
      db.notes := db.notes + [Note(d, None, ProblemResolved)];
      var _ := db.UpdateIssue(d, Touch);
      told := told + [d];
      assert told[..k] == duplicates[..k];
    }
  }

  // ---- Inbound Jira --------------------------------------------------------

  /** `id` is the issue the webhook's key belongs to, if any. */
  method ApplyWebhook(db: Database, id: Option<IssueId>, category: string, now: Time) returns (applied: bool)
    modifies db
    ensures db.Contents() == if id.Some? then Jira(old(db.Contents()), id.value, category, now) else old(db.Contents())
    ensures id.Some? ==> db.Contents() == Serve(old(db.Contents()), JiraWebhook(id.value, category, now))
    ensures applied <==>
      id.Some? && CategoryStatus(category).Some?
      && EditNow(old(db.Contents()), id.value, JiraStatus(CategoryStatus(category).value, now)).1.None?
  {
    var mapped := CategoryStatus(category);
    if mapped.None? || id.None? {
      return false;
    }
    var found := db.FindOne(id.value);
    if found.None? {
      return false;
    }
    var issue := found.value;
    var from := issue.status;
    var target := ResolveTarget(from, mapped.value);
    if from == target {
      return false;
    }
    issue.status := target;
    issue.ApplyStatusSideEffects(target, now);
    applied := db.SaveIssue(issue, [StatusChange(from, target, ByJira)]);
  }

  // ---- Automation ----------------------------------------------------------

  method ApplyAction(db: Database, issue: IssueEntity, rule: RuleAction)
    modifies db, issue
    ensures (db.Contents(), CopyOf(issue.Row())) ==
            RuleOne(old(db.Contents()), issue.id, old(CopyOf(issue.Row())), rule)
  {
    match rule {
      case ToPriority(to) =>
        var from := issue.priority;
        if from == to {
          return;
        }
        var _ := db.UpdateIssue(issue.id, WritePriority(from, to));
        issue.priority := to;
      case ToAssignee(target, assignable) =>
        var from := issue.assignee;
        if from == Some(target) || !assignable {
          return;
        }
        var _ := db.UpdateIssue(issue.id, WriteAssignee(from, target));
        issue.assignee := Some(target);
      case ToLabel(tag) =>
        var _ := db.UpdateIssue(issue.id, AddLabel(tag));
    }
  }

  method ApplyRules(db: Database, id: IssueId, rules: seq<RuleAction>)
    modifies db
    ensures db.Contents() == Automate(old(db.Contents()), id, rules)
    ensures db.Contents() == Serve(old(db.Contents()), RuleRun(id, rules))
  {
    var found := db.FindOne(id);
    if found.None? {
      return;
    }
    var issue := found.value;
    ghost var start := CopyOf(issue.Row());
    assert rules[..0] == [];
    for i := 0 to |rules|
      invariant (db.Contents(), CopyOf(issue.Row())) == RunRules(old(db.Contents()), id, start, rules[..i])
    {
      assert rules[..i + 1][..i] == rules[..i];
      ApplyAction(db, issue, rules[i]);
    }
    assert rules[..|rules|] == rules;
  }

  // ---- The SLA sweep -------------------------------------------------------

  /** The sweep's query. */
  method SelectOverdue(db: Database, windows: Windows, now: Time) returns (rows: seq<IssueId>)
    ensures Selected(db.Contents(), rows, windows, now)
  {
    rows := db.FindIds((i: Issue) =>
      IsOpen(i.status) && i.slaBreachedAt.None? && now >= i.slaStartedAt + windows(i.platform, i.priority));
  }

  /** The loop over the rows, whatever has become of them since they were selected:
      the conditional update goes through for the unmarked ones, and those, and no
      others, are recorded, reported and counted. */
  method EscalateRows(db: Database, rows: seq<IssueId>, now: Time) returns (escalated: nat, emitted: seq<IssueId>)
    modifies db
    ensures db.Contents() == MarkAll(old(db.Contents()), rows, now)
    ensures emitted == Marked(old(db.Contents()), rows, now) && escalated == |emitted|
  {
    escalated, emitted := 0, [];
    for k := 0 to |rows|
      invariant db.Contents() == MarkAll(old(db.Contents()), rows[..k], now)
      invariant emitted == Marked(old(db.Contents()), rows[..k], now) && escalated == |emitted|
    {
      assert rows[..k + 1][..k] == rows[..k];
      var affected := db.UpdateIssue(rows[k], MarkBreached(now));
      if !affected {
        continue;
      }
      emitted := emitted + [rows[k]];
      escalated := escalated + 1;
    }
    assert rows[..|rows|] == rows;
  }

  /** Undisturbed between the two, it marks and reports exactly the open, unmarked,
      past-due issues. */
  method Sweep(db: Database, windows: Windows, now: Time) returns (escalated: nat, emitted: seq<IssueId>)
    modifies db
    ensures Selected(old(db.Contents()), emitted, windows, now)
    ensures db.Contents() == MarkAll(old(db.Contents()), emitted, now)
    ensures db.Contents() == Serve(old(db.Contents()), SweepRun(emitted, now))
    ensures escalated == |emitted|
  {
    var rows := SelectOverdue(db, windows, now);
    SelectedAreUnmarked(db.Contents(), rows, windows, now);
    hide MarkAll, Marked, Escalated, Selected, Serve;
    escalated, emitted := EscalateRows(db, rows, now);
  }

  lemma SelectedAreUnmarked(w: World, rows: seq<IssueId>, windows: Windows, now: Time)
    requires Selected(w, rows, windows, now)
    ensures Marked(w, rows, now) == rows && Serve(w, SweepRun(rows, now)) == MarkAll(w, rows, now)
  {
    forall k | 0 <= k < |rows| ensures rows[k] in w.issues && w.issues[rows[k]].slaBreachedAt.None? {
      assert rows[k] in rows;
    }
    MarkAllMarks(w, rows, now, 0);
    AllMarked(w, rows, now);
  }
}
