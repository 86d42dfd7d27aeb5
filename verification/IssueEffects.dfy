/** What the edits of an issue ask for and what they do: who may make them, what the
    row and the log then say, and what is left after a bulk edit or a run of rules. */
module IssueEffects {
  import opened Basics
  import opened Access
  import opened Lifecycle
  import opened LifecycleInvariants
  import opened Duplicates
  import opened IssueOperations
  import opened OptimisticStore

  // ---- Who may edit --------------------------------------------------------

  /** A grant of one of the roles, everywhere or on this platform. */
  ghost predicate HasGrant(grants: seq<Grant>, platform: PlatformId, role: Role) {
    exists g <- grants :: g.role == role && (g.platform == None || g.platform == Some(platform))
  }

  /** The edges of the status machine. */
  const EDGES := {
    (New, InProgress), (New, OnHold), (New, Closed), (InProgress, OnHold), (InProgress, Resolved),
    (OnHold, InProgress), (OnHold, Closed), (Resolved, Closed), (Resolved, Reopened), (Closed, Reopened),
    (Reopened, InProgress)}

  lemma EdgesAre(from: Status, to: Status)
    ensures CanTransition(from, to) <==> (from, to) in EDGES
  {
    match from
    case New => assert STATUS_TRANSITIONS[New] == [InProgress, OnHold, Closed];
    case InProgress => assert STATUS_TRANSITIONS[InProgress] == [OnHold, Resolved];
    case OnHold => assert STATUS_TRANSITIONS[OnHold] == [InProgress, Closed];
    case Resolved => assert STATUS_TRANSITIONS[Resolved] == [Closed, Reopened];
    case Closed => assert STATUS_TRANSITIONS[Closed] == [Reopened];
    case Reopened => assert STATUS_TRANSITIONS[Reopened] == [InProgress];
  }

  lemma AccessIs(grants: seq<Grant>, platform: PlatformId, roles: set<Role>)
    ensures CanAccess(grants, platform, roles) <==> exists role <- roles :: HasGrant(grants, platform, role)
  {
    if role :| role in roles && HasGrant(grants, platform, role) {
      var g :| g in grants && g.role == role && (g.platform == None || g.platform == Some(platform));
      var k :| 0 <= k < |grants| && grants[k] == g;
    }
    if k :| 0 <= k < |grants| && grants[k].role in roles
            && (grants[k].platform.None? || grants[k].platform == Some(platform)) {
      assert HasGrant(grants, platform, grants[k].role);
    }
  }

  /** A developer or administrator, or a focal point where that is enabled. */
  ghost predicate MayMove(actor: Staff, platform: PlatformId, focal: bool) {
    || HasGrant(actor.grants, platform, Developer) || HasGrant(actor.grants, platform, Administrator)
    || (focal && HasGrant(actor.grants, platform, FocalPoint))
  }

  /** What an edit asks for, beside the issue being there. */
  ghost predicate Acceptable(i: Issue, cmd: Cmd) {
    match cmd
    case SetStatus(actor, to, seen, focal, _) =>
      && seen == i.version && (i.status, to) in EDGES && MayMove(actor, i.platform, focal)
    case SetPriority(priority, seen) => seen == i.version && priority != i.priority
    case Assign(target, account, seen) =>
      && seen == i.version
      && (target != None ==>
            account.Some? && account.value.active && HasGrant(account.value.grants, i.platform, Developer))
    case JiraStatus(mapped, _) => mapped != i.status
    case CloseAsDuplicate(_, _, seen, _) => seen == i.version && i.duplicateOf == None && i.status != Closed
  }

  /** An edit goes through exactly when the version is the one its author saw, its
      author may make it, and there is something to change: a status along an edge of
      the machine, by a developer or administrator, or a focal point where that is
      enabled; an assignee who is active and a developer on the platform. */
  lemma EditAcceptedIff(w: World, id: IssueId, cmd: Cmd)
    requires FromCategory(cmd)
    ensures EditNow(w, id, cmd).1 == None <==> id in w.issues && Acceptable(w.issues[id], cmd)
  {
    if id in w.issues {
      var i := w.issues[id];
      match cmd
      case SetStatus(actor, to, _, focal, _) =>
        EdgesAre(i.status, to);
        AccessIs(actor.grants, i.platform, TransitionRoles(focal));
        hide CanAccess, HasGrant, CanTransition;
      case Assign(_, account, _) =>
        if account.Some? {
          AccessIs(account.value.grants, i.platform, {Developer});
        }
        hide CanAccess, HasGrant;
      case _ =>
    }
  }

  /** Why an edit is refused: the first thing that stands in its way. */
  ghost predicate Because(i: Issue, cmd: Cmd, e: Refusal) {
    match cmd
    case SetStatus(actor, to, seen, focal, _) =>
      if seen != i.version then e == VersionConflict
      else if !MayMove(actor, i.platform, focal) then e == Forbidden
      else if to == i.status then e == AlreadyInStatus
      else (i.status, to) !in EDGES && e == BadTransition
    case SetPriority(priority, seen) =>
      if seen != i.version then e == VersionConflict else priority == i.priority && e == SamePriority
    case Assign(target, account, seen) =>
      if seen != i.version then e == VersionConflict
      else target != None && if account == None || !account.value.active then e == AssigneeInactive
                             else !HasGrant(account.value.grants, i.platform, Developer) && e == AssigneeNotDeveloper
    case JiraStatus(mapped, _) => mapped == i.status && e == NothingToApply
    case CloseAsDuplicate(_, _, seen, _) =>
      if i.duplicateOf != None then e == AlreadyMerged
      else if i.status == Closed then e == DuplicateClosed
      else seen != i.version && e == VersionConflict
  }

  lemma DecidedBecause(i: Issue, cmd: Cmd, e: Refusal)
    requires FromCategory(cmd)
    ensures Decide(i, cmd) == Err(e) <==> Because(i, cmd, e)
  {
    match cmd
    case SetStatus(actor, to, _, focal, _) =>
      EdgesAre(i.status, to);
      AccessIs(actor.grants, i.platform, TransitionRoles(focal));
      hide CanAccess, HasGrant, CanTransition, SideEffects;
    case Assign(_, account, _) =>
      if account.Some? {
        AccessIs(account.value.grants, i.platform, {Developer});
      }
      hide CanAccess, HasGrant;
    case _ =>
  }

  /** An edit is refused with the reason that stands first in its way. */
  lemma EditRefusedBecause(w: World, id: IssueId, cmd: Cmd, e: Refusal)
    requires FromCategory(cmd)
    ensures EditNow(w, id, cmd).1 == Some(e)
       <==> (id !in w.issues && e == NotFound) || (id in w.issues && Because(w.issues[id], cmd, e))
  {
    if id in w.issues {
      DecidedBecause(w.issues[id], cmd, e);
      hide Decide, Because;
    }
  }

  // ---- What an edit does -----------------------------------------------------

  /** The row is moved to a status: when it was resolved or first closed is noted, and
      reopening forgets all of that and starts the clock again. */
  predicate MovedTo(was: Issue, row: Issue, to: Status, now: Time) {
    && row.status == to && row.platform == was.platform && row.priority == was.priority && row.assignee == was.assignee
    && row.resolvedAt == (if to == Resolved then Some(now) else if to == Reopened then None else was.resolvedAt)
    && row.closedAt ==
       (if to == Reopened then None else if to == Closed && was.closedAt == None then Some(now) else was.closedAt)
    && row.duplicateOf == (if to == Reopened then None else was.duplicateOf)
    && row.slaStartedAt == (if to == Reopened then now else was.slaStartedAt)
    && row.slaBreachedAt == (if to == Reopened then None else was.slaBreachedAt)
  }

  /** What an edit that goes through leaves: the row, one version on, as its author
      wanted it, and the records of what changed from what; no other row, and no
      other record. */
  lemma EditDoes(w: World, id: IssueId, cmd: Cmd)
    requires FromCategory(cmd) && EditNow(w, id, cmd).1 == None
    ensures id in w.issues && id in EditNow(w, id, cmd).0.issues
    ensures var was, w' := w.issues[id], EditNow(w, id, cmd).0;
            var row := w'.issues[id];
            && w'.issues == w.issues[id := row] && row.version == was.version + 1
            && match cmd
               case SetPriority(p, _) =>
                 && row == was.(priority := p, version := row.version)
                 && w'.audit == w.audit + [Entry(id, PriorityChange(was.priority, p))]
               case Assign(target, _, _) =>
                 && row == was.(assignee := target, version := row.version)
                 && w'.audit == w.audit + [Entry(id, Assignment(was.assignee, target))]
               case SetStatus(_, to, _, _, now) =>
                 && MovedTo(was, row, to, now)
                 && w'.audit == w.audit + [Entry(id, StatusChange(was.status, to, ByStaff))]
               case CloseAsDuplicate(_, canonical, _, now) =>
                 && MovedTo(was, row.(duplicateOf := was.duplicateOf), Closed, now)
                 && row.duplicateOf == Some(canonical)
                 && w'.audit ==
                    w.audit + [Entry(id, Merging(canonical)), Entry(id, StatusChange(was.status, Closed, ByMerge))]
               case JiraStatus(mapped, now) =>
                 var to := if mapped == Resolved || IsOpen(was.status) then mapped else Reopened;
                 && MovedTo(was, row, to, now)
                 && w'.audit == w.audit + [Entry(id, StatusChange(was.status, to, ByJira))]
  {
    EditedWorld(w, id, cmd);
    hide EditNow;
  }

  /** What an inbound status category makes of an issue: `done` resolves it; `new` and
      `indeterminate` reopen a resolved or closed one and otherwise make it NEW or IN
      PROGRESS; any other category changes nothing. */
  lemma InboundCategories(w: World, id: IssueId, category: string, now: Time)
    requires id in w.issues
    ensures var to := match category
                      case "done" => Resolved
                      case "new" => if w.issues[id].status in {Resolved, Closed} then Reopened else New
                      case "indeterminate" => if w.issues[id].status in {Resolved, Closed} then Reopened else InProgress
                      case _ => w.issues[id].status;
            && id in Jira(w, id, category, now).issues
            && Jira(w, id, category, now).issues[id].status == to
            && (to == w.issues[id].status ==> Jira(w, id, category, now) == w)
  {
    assert "new"[0] != "done"[0] && "new"[0] != "indeterminate"[0] && "done"[0] != "indeterminate"[0];
    if CategoryStatus(category).Some? {
      var cmd := JiraStatus(CategoryStatus(category).value, now);
      if EditNow(w, id, cmd).1 == None {
        EditDoes(w, id, cmd);
      }
      EditAcceptedIff(w, id, cmd);
    }
    hide EditNow, MovedTo;
  }

  /** A new issue: NEW, of medium priority, nobody's, its clock running from now, and
      its first record. One that is there already is left alone. */
  lemma NewIssues(w: World, id: IssueId, platform: PlatformId, now: Time)
    ensures var w' := Create(w, id, platform, now);
            if id in w.issues then w' == w
            else && id in w'.issues && w'.issues == w.issues[id := w'.issues[id]]
                 && w'.audit == w.audit + [Entry(id, Creation)]
                 && var i := w'.issues[id];
                    && i.platform == platform && i.status == New && i.priority == Medium && i.assignee == None
                    && i.duplicateOf == None && i.resolvedAt == None && i.closedAt == None
                    && i.slaStartedAt == now && i.slaBreachedAt == None && i.version == 1
  {
  }

  /** What an update that ignores the version leaves: what it writes, one version on
      unless it is a label, and its record, with the old value its author had in mind. A
      breach is marked once. */
  lemma WriteDoes(w: World, id: IssueId, b: Blind)
    ensures var w' := Write(w, id, b);
            if id !in w.issues || (b.MarkBreached? && w.issues[id].slaBreachedAt != None) then w' == w
            else && id in w'.issues && w' == w.(issues := w.issues[id := w'.issues[id]], audit := w'.audit)
                 && var was, row := w.issues[id], w'.issues[id];
                    match b
                    case WritePriority(from, p) =>
                      && row == was.(priority := p, version := was.version + 1)
                      && w'.audit == w.audit + [Entry(id, PriorityChange(from, p))]
                    case WriteAssignee(from, a) =>
                      && row == was.(assignee := Some(a), version := was.version + 1)
                      && w'.audit == w.audit + [Entry(id, Assignment(from, Some(a)))]
                    case AddLabel(tag) => row == was && w'.audit == w.audit + [Entry(id, Labelling(tag))]
                    case MarkBreached(now) =>
                      && row == was.(slaBreachedAt := Some(now), version := was.version + 1)
                      && w'.audit == w.audit + [Entry(id, Breach)]
                    case Touch => row == was.(version := was.version + 1) && w'.audit == w.audit
  {
  }

  /** A comment makes whoever looked at the issue before it reload: a staff edit that
      still names the old version is refused. */
  lemma CommentsMeanReloading(w: World, id: IssueId, cmd: Cmd)
    requires id in w.issues && SeenVersion(cmd) == Some(w.issues[id].version) && !cmd.CloseAsDuplicate?
    ensures EditNow(Serve(w, Commented(id)), id, cmd).1 == Some(VersionConflict)
  {
    WriteDoes(w, id, Touch);
    hide Write;
  }

  // ---- Bulk edits ------------------------------------------------------------

  /** The row has what the bulk edit asks for. */
  predicate HasIt(i: Issue, op: BulkOp) {
    match op
    case BulkStatus(to) => i.status == to
    case BulkPriority(p) => i.priority == p
    case BulkAssignee(target, _) => i.assignee == target
  }

  lemma BulkOneDoes(w: World, actor: Staff, id: IssueId, op: BulkOp, focal: bool, now: Time)
    ensures var (w', outcome) := BulkOne(w, actor, id, op, focal, now);
            outcome == None ==> id in w'.issues && HasIt(w'.issues[id], op)
  {
    if id in w.issues {
      var cmd := BulkCmd(actor, op, w.issues[id].version, focal, now);
      if EditNow(w, id, cmd).1 == None {
        EditDoes(w, id, cmd);
      }
      hide EditNow;
    }
  }

  /** Why an issue of a bulk edit is skipped: it is not there or on a platform where the
      caller may not write, which is not told apart, or the edit itself is refused. */
  lemma BulkOneSkipsBecause(w: World, actor: Staff, id: IssueId, op: BulkOp, focal: bool, now: Time, why: SkipReason)
    ensures var writer := id in w.issues &&
              exists role :: && role in {FocalPoint, Developer, Administrator}
                             && HasGrant(actor.grants, w.issues[id].platform, role);
            var seen := if id in w.issues then w.issues[id].version else 0;
            var edit := match op
                        case BulkStatus(to) => SetStatus(actor, to, seen, focal, now)
                        case BulkPriority(p) => SetPriority(p, seen)
                        case BulkAssignee(target, account) => Assign(target, account, seen);
            (BulkOne(w, actor, id, op, focal, now).1 == Some(why)
             <==> if !writer then why == NotVisible else why.Refused? && Because(w.issues[id], edit, why.refusal))
  {
    if id in w.issues {
      AccessIs(actor.grants, w.issues[id].platform, WRITE_ROLES);
      var cmd := BulkCmd(actor, op, w.issues[id].version, focal, now);
      if why.Refused? {
        EditRefusedBecause(w, id, cmd, why.refusal);
      }
      hide EditNow, Because, HasGrant, CanAccess;
    }
  }

  ghost predicate Skipped(report: BulkReport, id: IssueId) { exists s <- report.skipped :: s.0 == id }

  predicate DistinctIds(ids: seq<IssueId>) { forall j, k :: 0 <= j < k < |ids| ==> ids[j] != ids[k] }

  /** After a bulk edit of different issues, every one of them is either skipped, with
      its row as it was, or has what was asked for, one version on. */
  lemma {:induction false} BulkDoes(w: World, actor: Staff, ids: seq<IssueId>, op: BulkOp, focal: bool, now: Time,
                                    id: IssueId)
    requires DistinctIds(ids) && id in ids
    ensures var (w', report) := BulkRun(w, actor, ids, op, focal, now);
            if Skipped(report, id) then
              (id in w'.issues <==> id in w.issues) && (id in w.issues ==> w'.issues[id] == w.issues[id])
            else
              && id in w.issues && id in w'.issues && HasIt(w'.issues[id], op)
              && w'.issues[id].version == w.issues[id].version + 1
    decreases |ids|
  {
    var front, last := ids[..|ids| - 1], ids[|ids| - 1];
    var (w1, report1) := BulkRun(w, actor, front, op, focal, now);
    BulkOneSkipsCleanly(w1, actor, last, op, focal, now);
    BulkTouchesOnlyListed(w, actor, front, op, focal, now, id);
    SkippedAreListed(w, actor, front, op, focal, now);
    var (w2, outcome) := BulkOne(w1, actor, last, op, focal, now);
    var report := Tally(report1, last, outcome);
    assert BulkRun(w, actor, ids, op, focal, now) == (w2, report);
    assert outcome.Some? ==> report.skipped == report1.skipped + [(last, outcome.value)];
    if id == last {
      BulkOneDoes(w1, actor, last, op, focal, now);
      assert id !in front;
      assert outcome.Some? ==> report.skipped[|report1.skipped|].0 == id;
    } else {
      BulkDoes(w, actor, front, op, focal, now, id);
      assert Skipped(report, id) <==> Skipped(report1, id) by {
        if Skipped(report1, id) {
          var s :| s in report1.skipped && s.0 == id;
          assert s in report.skipped;
        }
      }
    }
    hide BulkOne, BulkRun, HasIt;
  }

  lemma {:induction false} SkippedAreListed(w: World, actor: Staff, ids: seq<IssueId>, op: BulkOp, focal: bool,
                                            now: Time)
    ensures forall s <- BulkRun(w, actor, ids, op, focal, now).1.skipped :: s.0 in ids
    decreases |ids|
  {
    hide BulkOne;
    if ids != [] {
      SkippedAreListed(w, actor, ids[..|ids| - 1], op, focal, now);
    }
  }

  // ---- Automation rules --------------------------------------------------------

  /** The priority the last rule that sets one sets. */
  function LastPriority(rules: seq<RuleAction>): Option<Priority> {
    if rules == [] then None
    else if rules[|rules| - 1].ToPriority? then Some(rules[|rules| - 1].priority)
    else LastPriority(rules[..|rules| - 1])
  }

  /** Whom the last rule assigns whose target may be assigned. */
  function LastAssignee(rules: seq<RuleAction>): Option<StaffId> {
    if rules == [] then None
    else
      var r := rules[|rules| - 1];
      if r.ToAssignee? && r.assignable then Some(r.target) else LastAssignee(rules[..|rules| - 1])
  }

  /** Issue `id` has a record of getting each label a rule adds. */
  ghost predicate LabelsRecorded(w: World, id: IssueId, rules: seq<RuleAction>) {
    forall k :: 0 <= k < |rules| && rules[k].ToLabel? ==> Entry(id, Labelling(rules[k].tag)) in w.audit
  }

  lemma RuleDoes(w: World, id: IssueId, r: RuleAction)
    requires id in w.issues
    ensures var was, w' := w.issues[id], RuleOne(w, id, CopyOf(w.issues[id]), r).0;
            && id in w'.issues && w.audit <= w'.audit
            && w'.issues[id].priority == (if r.ToPriority? then r.priority else was.priority)
            && w'.issues[id].assignee == (if r.ToAssignee? && r.assignable then Some(r.target) else was.assignee)
            && w'.issues[id] == was.(priority := w'.issues[id].priority, assignee := w'.issues[id].assignee,
                                     version := w'.issues[id].version)
            && (r.ToLabel? ==> Entry(id, Labelling(r.tag)) in w'.audit)
  {
    if r.ToLabel? {
      var b := AddLabel(r.tag);
      assert Write(w, id, b).audit == w.audit + Entries(id, BlindChanges(b));
      assert Entries(id, BlindChanges(b))[0] == Entry(id, Labelling(r.tag));
      assert Write(w, id, b).audit[|w.audit|] == Entry(id, Labelling(r.tag));
    }
  }

  /** After a run of rules the issue has the priority and the assignee of the last
      rule that sets one, every label added is on record, and nothing else of the row
      has changed but its version. */
  lemma {:induction false} RulesTakeEffect(w: World, id: IssueId, rules: seq<RuleAction>)
    requires id in w.issues
    ensures var was, w' := w.issues[id], Automate(w, id, rules);
            && id in w'.issues && w.audit <= w'.audit
            && w'.issues[id] == was.(priority := OrElse(LastPriority(rules), was.priority),
                                     assignee := if LastAssignee(rules) == None then was.assignee
                                                 else LastAssignee(rules),
                                     version := w'.issues[id].version)
            && LabelsRecorded(w', id, rules)
  {
    if rules != [] {
      var front, last := rules[..|rules| - 1], rules[|rules| - 1];
      RulesTakeEffect(w, id, front);
      CopyStaysInStep(w, id, front);
      var w1 := Automate(w, id, front);
      RuleDoes(w1, id, last);
      assert Automate(w, id, rules) == RuleOne(w1, id, CopyOf(w1.issues[id]), last).0;
      hide RuleOne, RunRules, Automate;
    }
  }
}
