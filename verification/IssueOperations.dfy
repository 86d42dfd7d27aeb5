/** The larger operations on issues, each made of single edits and blind updates:
    bulk edits, automation rules, the SLA sweep and the resolution fan-out; and
    what every run of all of them keeps. */
module IssueOperations {
  import opened Basics
  import opened Access
  import opened Lifecycle
  import opened LifecycleInvariants
  import opened Duplicates

  // ---- Bulk edits ----------------------------------------------------------

  datatype BulkOp =
    | BulkStatus(to: Status)
    | BulkPriority(priority: Priority)
    | BulkAssignee(target: Option<StaffId>, account: Option<Account>)

  datatype SkipReason = NotVisible | Refused(refusal: Refusal)

  datatype BulkReport = BulkReport(updated: nat, skipped: seq<(IssueId, SkipReason)>)

  /** The single-issue edit a bulk edit makes on an issue at version `seen`. */
  function BulkCmd(actor: Staff, op: BulkOp, seen: nat, focal: bool, now: Time): Cmd {
    match op
    case BulkStatus(to) => SetStatus(actor, to, seen, focal, now)
    case BulkPriority(p) => SetPriority(p, seen)
    case BulkAssignee(target, account) => Assign(target, account, seen)
  }

  function BulkOne(w: World, actor: Staff, id: IssueId, op: BulkOp, focal: bool, now: Time):
      (World, Option<SkipReason>)
  {
    if id !in w.issues || !CanAccess(actor.grants, w.issues[id].platform, WRITE_ROLES) then (w, Some(NotVisible))
    else match EditNow(w, id, BulkCmd(actor, op, w.issues[id].version, focal, now))
      case (w', None) => (w', None)
      case (w', Some(refusal)) => (w', Some(Refused(refusal)))
  }

  function Tally(r: BulkReport, id: IssueId, outcome: Option<SkipReason>): BulkReport {
    match outcome
    case None => r.(updated := r.updated + 1)
    case Some(reason) => r.(skipped := r.skipped + [(id, reason)])
  }

  /** The ids in order, each on its own. */
  function BulkRun(w: World, actor: Staff, ids: seq<IssueId>, op: BulkOp, focal: bool, now: Time): (World, BulkReport) {
    if ids == [] then (w, BulkReport(0, []))
    else
      var last := |ids| - 1;
      var (w1, report) := BulkRun(w, actor, ids[..last], op, focal, now);
      var (w2, outcome) := BulkOne(w1, actor, ids[last], op, focal, now);
      (w2, Tally(report, ids[last], outcome))
  }

  /** Every id is reported, as updated or as skipped with a reason. */
  lemma {:induction false} BulkAccountsForAll(w: World, actor: Staff, ids: seq<IssueId>, op: BulkOp, focal: bool,
                                              now: Time)
    ensures var report := BulkRun(w, actor, ids, op, focal, now).1;
            report.updated + |report.skipped| == |ids|
  {
    if ids != [] {
      BulkAccountsForAll(w, actor, ids[..|ids| - 1], op, focal, now);
    }
  }

  /** Undisturbed between load and save, an issue of a bulk edit is skipped without a
      trace or edited alone, and its version never conflicts. */
  lemma BulkOneSkipsCleanly(w: World, actor: Staff, id: IssueId, op: BulkOp, focal: bool, now: Time)
    ensures var (w', outcome) := BulkOne(w, actor, id, op, focal, now);
            && (outcome.Some? ==> w' == w)
            && (outcome != Some(Refused(VersionConflict)))
            && (outcome.None? ==>
                  && id in w.issues && id in w'.issues
                  && w'.issues[id].version == w.issues[id].version + 1
                  && w'.issues == w.issues[id := w'.issues[id]])
  {
  }

  /** An issue that is not listed, or on a platform where the caller has no write
      role, stays as it was. */
  lemma {:induction false} BulkTouchesOnlyListed(w: World, actor: Staff, ids: seq<IssueId>, op: BulkOp, focal: bool,
                                                 now: Time, id: IssueId)
    ensures var w' := BulkRun(w, actor, ids, op, focal, now).0;
            && w'.issues.Keys == w.issues.Keys
            && (id in w.issues && id !in ids ==> w'.issues[id] == w.issues[id])
            && (id in w.issues && !CanAccess(actor.grants, w.issues[id].platform, WRITE_ROLES) ==>
                  w'.issues[id] == w.issues[id])
            && (id in w.issues ==> w'.issues[id].platform == w.issues[id].platform)
  {
    if ids != [] {
      var last := |ids| - 1;
      var w1 := BulkRun(w, actor, ids[..last], op, focal, now).0;
      BulkTouchesOnlyListed(w, actor, ids[..last], op, focal, now, id);
      BulkTouchesOnlyListed(w, actor, ids[..last], op, focal, now, ids[last]);
      BulkOneSkipsCleanly(w1, actor, ids[last], op, focal, now);
    }
  }

  lemma BulkOneKeeps(w: World, actor: Staff, id: IssueId, op: BulkOp, focal: bool, now: Time)
    requires Sound(w) && Forest(w.issues)
    ensures Sound(BulkOne(w, actor, id, op, focal, now).0) && Forest(BulkOne(w, actor, id, op, focal, now).0.issues)
  {
    if id in w.issues {
      var cmd := BulkCmd(actor, op, w.issues[id].version, focal, now);
      EditKeepsSound(w, id, cmd);
      EditKeepsForest(w, id, cmd);
    }
  }

  lemma {:induction false} BulkKeeps(w: World, actor: Staff, ids: seq<IssueId>, op: BulkOp, focal: bool, now: Time)
    requires Sound(w) && Forest(w.issues)
    ensures Sound(BulkRun(w, actor, ids, op, focal, now).0)
    ensures Forest(BulkRun(w, actor, ids, op, focal, now).0.issues)
  {
    if ids != [] {
      var last := |ids| - 1;
      BulkKeeps(w, actor, ids[..last], op, focal, now);
      BulkOneKeeps(BulkRun(w, actor, ids[..last], op, focal, now).0, actor, ids[last], op, focal, now);
    }
  }

  // ---- Automation rules ----------------------------------------------------

  /** A rule's action. `assignable` is whether the target passed the check at the
      moment the rule was applied; a rule that fails it is logged and skipped. */
  datatype RuleAction =
    | ToPriority(priority: Priority)
    | ToAssignee(target: StaffId, assignable: bool)
    | ToLabel(tag: nat)

  /** The writer's in-memory copy of what rules compare against. */
  datatype Copy = Copy(priority: Priority, assignee: Option<StaffId>)

  function CopyOf(i: Issue): Copy { Copy(i.priority, i.assignee) }

  function RuleOne(w: World, id: IssueId, mem: Copy, r: RuleAction): (World, Copy) {
    match r
    case ToPriority(p) =>
      if mem.priority == p then (w, mem)
      else (Write(w, id, WritePriority(mem.priority, p)), mem.(priority := p))
    case ToAssignee(a, assignable) =>
      if mem.assignee == Some(a) || !assignable then (w, mem)
      else (Write(w, id, WriteAssignee(mem.assignee, a)), mem.(assignee := Some(a)))
    case ToLabel(l) => (Write(w, id, AddLabel(l)), mem)
  }

  /** The rule loop: the issue is loaded once, and its copy kept in step. */
  function RunRules(w: World, id: IssueId, mem: Copy, rules: seq<RuleAction>): (World, Copy) {
    if rules == [] then (w, mem)
    else
      var last := |rules| - 1;
      var (w1, mem1) := RunRules(w, id, mem, rules[..last]);
      RuleOne(w1, id, mem1, rules[last])
  }

  function Automate(w: World, id: IssueId, rules: seq<RuleAction>): World {
    if id !in w.issues then w else RunRules(w, id, CopyOf(w.issues[id]), rules).0
  }

  /** The same rules, each loading the issue afresh. */
  function AutomateAfresh(w: World, id: IssueId, rules: seq<RuleAction>): World {
    if rules == [] then w
    else
      var w1 := AutomateAfresh(w, id, rules[..|rules| - 1]);
      Automate(w1, id, [rules[|rules| - 1]])
  }

  lemma RuleOneInStep(w: World, id: IssueId, r: RuleAction)
    requires id in w.issues
    ensures var (w', mem') := RuleOne(w, id, CopyOf(w.issues[id]), r);
            id in w'.issues && mem' == CopyOf(w'.issues[id])
  {
  }

  lemma {:induction false} CopyStaysInStep(w: World, id: IssueId, rules: seq<RuleAction>)
    requires id in w.issues
    ensures var (w', mem') := RunRules(w, id, CopyOf(w.issues[id]), rules);
            id in w'.issues && mem' == CopyOf(w'.issues[id])
  {
    if rules != [] {
      CopyStaysInStep(w, id, rules[..|rules| - 1]);
      RuleOneInStep(RunRules(w, id, CopyOf(w.issues[id]), rules[..|rules| - 1]).0, id, rules[|rules| - 1]);
    }
  }

  /** Undisturbed, loading once and keeping the copy in step does what loading
      before every rule would. */
  lemma {:induction false} LoadingOnceIsEnough(w: World, id: IssueId, rules: seq<RuleAction>)
    ensures Automate(w, id, rules) == AutomateAfresh(w, id, rules)
    ensures Automate(w, id, rules).issues.Keys == w.issues.Keys
  {
    if rules != [] && id in w.issues {
      var front, r := rules[..|rules| - 1], rules[|rules| - 1];
      LoadingOnceIsEnough(w, id, front);
      CopyStaysInStep(w, id, front);
      var w1 := Automate(w, id, front);
      assert [r][..0] == [];
      assert RunRules(w1, id, CopyOf(w1.issues[id]), [r]) == RuleOne(w1, id, CopyOf(w1.issues[id]), r);
    } else if rules != [] {
      LoadingOnceIsEnough(w, id, rules[..|rules| - 1]);
    }
  }

  lemma RuleKeeps(w: World, id: IssueId, r: RuleAction)
    requires Sound(w) && Forest(w.issues) && id in w.issues
    ensures Sound(RuleOne(w, id, CopyOf(w.issues[id]), r).0)
    ensures Forest(RuleOne(w, id, CopyOf(w.issues[id]), r).0.issues)
  {
    var mem := CopyOf(w.issues[id]);
    var b := match r
      case ToPriority(p) => WritePriority(mem.priority, p)
      case ToAssignee(a, _) => WriteAssignee(mem.assignee, a)
      case ToLabel(l) => AddLabel(l);
    if RuleOne(w, id, mem, r).0 != w {
      WriteKeepsRows(w, id, b);
      WriteKeepsReplayIffInStep(w, id, b);
      WriteKeepsForest(w, id, b);
    }
  }

  lemma {:induction false} RulesKeep(w: World, id: IssueId, rules: seq<RuleAction>)
    requires Sound(w) && Forest(w.issues)
    ensures Sound(Automate(w, id, rules)) && Forest(Automate(w, id, rules).issues)
  {
    if rules != [] && id in w.issues {
      var front := rules[..|rules| - 1];
      RulesKeep(w, id, front);
      CopyStaysInStep(w, id, front);
      RuleKeeps(Automate(w, id, front), id, rules[|rules| - 1]);
    }
  }

  // ---- The SLA sweep -------------------------------------------------------

  /** When an issue of a platform and priority is due, counted from its start. */
  type Windows = (PlatformId, Priority) -> Time

  predicate PastDue(i: Issue, windows: Windows, now: Time) {
    now >= i.slaStartedAt + windows(i.platform, i.priority)
  }

  /** What the sweep selects: open, unmarked, past due. */
  predicate Escalatable(i: Issue, windows: Windows, now: Time) {
    IsOpen(i.status) && i.slaBreachedAt.None? && PastDue(i, windows, now)
  }

  function MarkAll(w: World, ids: seq<IssueId>, now: Time): World {
    if ids == [] then w else Write(MarkAll(w, ids[..|ids| - 1], now), ids[|ids| - 1], MarkBreached(now))
  }

  /** How many of the marks go through. */
  function Escalated(w: World, ids: seq<IssueId>, now: Time): nat {
    if ids == [] then 0
    else
      var before := MarkAll(w, ids[..|ids| - 1], now);
      Escalated(w, ids[..|ids| - 1], now) + if Affects(before, ids[|ids| - 1], MarkBreached(now)) then 1 else 0
  }

  /** The ids whose mark goes through. */
  function Marked(w: World, ids: seq<IssueId>, now: Time): (r: seq<IssueId>)
    ensures |r| == Escalated(w, ids, now)
  {
    if ids == [] then []
    else
      var front, last := ids[..|ids| - 1], ids[|ids| - 1];
      Marked(w, front, now) + if Affects(MarkAll(w, front, now), last, MarkBreached(now)) then [last] else []
  }

  lemma {:induction false} AllMarked(w: World, ids: seq<IssueId>, now: Time)
    requires Escalated(w, ids, now) == |ids|
    ensures Marked(w, ids, now) == ids
  {
    if ids != [] {
      EscalatedBounded(w, ids[..|ids| - 1], now);
      AllMarked(w, ids[..|ids| - 1], now);
    }
  }

  lemma {:induction false} EscalatedBounded(w: World, ids: seq<IssueId>, now: Time)
    ensures Escalated(w, ids, now) <= |ids|
  {
    if ids != [] {
      EscalatedBounded(w, ids[..|ids| - 1], now);
    }
  }

  /** `ids` lists, in whatever order, the issues the sweep's query returns. */
  ghost predicate Selected(w: World, ids: seq<IssueId>, windows: Windows, now: Time) {
    && (forall j, k :: 0 <= j < k < |ids| ==> ids[j] != ids[k])
    && (forall id :: id in ids <==> id in w.issues && Escalatable(w.issues[id], windows, now))
  }

  lemma {:induction false} MarkAllMarks(w: World, ids: seq<IssueId>, now: Time, id: IssueId)
    requires forall k :: 0 <= k < |ids| ==> ids[k] in w.issues && w.issues[ids[k]].slaBreachedAt.None?
    requires forall j, k :: 0 <= j < k < |ids| ==> ids[j] != ids[k]
    ensures var w' := MarkAll(w, ids, now);
            && w'.issues.Keys == w.issues.Keys
            && (id in w.issues && id in ids ==>
                  w'.issues[id] == w.issues[id].(slaBreachedAt := Some(now), version := w.issues[id].version + 1))
            && (id in w.issues && id !in ids ==> w'.issues[id] == w.issues[id])
    ensures Escalated(w, ids, now) == |ids|
  {
    if ids != [] {
      var front, last := ids[..|ids| - 1], ids[|ids| - 1];
      MarkAllMarks(w, front, now, id);
      MarkAllMarks(w, front, now, last);
      assert last !in front;
      assert id in ids <==> id in front || id == last;
    }
  }

  /** A sweep nobody disturbs marks exactly the open, unmarked, past-due issues,
      and reports how many that was. */
  lemma SweepMarksExactlyTheOverdue(w: World, ids: seq<IssueId>, windows: Windows, now: Time, id: IssueId)
    requires Selected(w, ids, windows, now) && id in w.issues
    ensures id in MarkAll(w, ids, now).issues
    ensures MarkAll(w, ids, now).issues[id].slaBreachedAt ==
            if Escalatable(w.issues[id], windows, now) then Some(now) else w.issues[id].slaBreachedAt
    ensures Escalated(w, ids, now) == |ids|
  {
    forall k | 0 <= k < |ids| ensures ids[k] in w.issues && w.issues[ids[k]].slaBreachedAt.None? {
      assert ids[k] in ids;
    }
    MarkAllMarks(w, ids, now, id);
  }

  lemma {:induction false} MarkAllKeeps(w: World, ids: seq<IssueId>, now: Time)
    requires Sound(w) && Forest(w.issues)
    ensures Sound(MarkAll(w, ids, now)) && Forest(MarkAll(w, ids, now).issues)
  {
    if ids != [] {
      var before := MarkAll(w, ids[..|ids| - 1], now);
      MarkAllKeeps(w, ids[..|ids| - 1], now);
      WriteKeepsRows(before, ids[|ids| - 1], MarkBreached(now));
      WriteKeepsReplayIffInStep(before, ids[|ids| - 1], MarkBreached(now));
      WriteKeepsForest(before, ids[|ids| - 1], MarkBreached(now));
    }
  }

  // ---- Telling duplicates that the problem is resolved ---------------------

  /** One note and one touch for each issue of `ids`. */
  function TellAll(w: World, ids: seq<IssueId>): World {
    if ids == [] then w
    else
      var before := TellAll(w, ids[..|ids| - 1]);
      var last := ids[|ids| - 1];
      Write(before.(notes := before.notes + [Note(last, None, ProblemResolved)]), last, Touch)
  }

  function ResolvedNotes(ids: seq<IssueId>): (r: seq<Note>)
    ensures |r| == |ids| && forall k :: 0 <= k < |ids| ==> r[k] == Note(ids[k], None, ProblemResolved)
  {
    seq(|ids|, k requires 0 <= k < |ids| => Note(ids[k], None, ProblemResolved))
  }

  /** The fan-out writes one note per issue told, in order, records nothing, and
      changes of each row only its version, which rises with every note. */
  lemma {:induction false} TellAllNotes(w: World, ids: seq<IssueId>)
    ensures TellAll(w, ids).notes == w.notes + ResolvedNotes(ids)
    ensures TellAll(w, ids).audit == w.audit
    ensures TellAll(w, ids).issues.Keys == w.issues.Keys
    ensures forall id <- w.issues ::
              TellAll(w, ids).issues[id] == w.issues[id].(version := w.issues[id].version + multiset(ids)[id])
  {
    if ids != [] {
      var front, last := ids[..|ids| - 1], ids[|ids| - 1];
      TellAllNotes(w, front);
      assert ids == front + [last];
      assert ResolvedNotes(ids) == ResolvedNotes(ids[..|ids| - 1]) + [Note(ids[|ids| - 1], None, ProblemResolved)];
    }
  }

  lemma {:induction false} TellAllKeeps(w: World, ids: seq<IssueId>)
    requires Sound(w) && Forest(w.issues)
    ensures Sound(TellAll(w, ids)) && Forest(TellAll(w, ids).issues)
  {
    if ids != [] {
      var before := TellAll(w, ids[..|ids| - 1]);
      var last := ids[|ids| - 1];
      TellAllKeeps(w, ids[..|ids| - 1]);
      var noted := before.(notes := before.notes + [Note(last, None, ProblemResolved)]);
      assert forall id :: Standing(noted, id) == Standing(before, id);
      WriteKeepsRows(noted, last, Touch);
      WriteKeepsReplayIffInStep(noted, last, Touch);
      WriteKeepsForest(noted, last, Touch);
    }
  }

  // ---- Every run of every operation ----------------------------------------

  /** What reaches the services. A fan-out may come at any moment and tell anybody. */
  datatype Request =
    | Reported(newId: IssueId, platform: PlatformId, now: Time)
    | StaffEdit(id: IssueId, cmd: Cmd)
    | BulkEdit(actor: Staff, ids: seq<IssueId>, op: BulkOp, focal: bool, now: Time)
    | MergeInto(actor: Staff, id: IssueId, canonical: IssueId, seen: nat, now: Time)
    | JiraWebhook(id: IssueId, category: string, now: Time)
    | RuleRun(id: IssueId, rules: seq<RuleAction>)
    | SweepRun(ids: seq<IssueId>, now: Time)
    | FanOut(ids: seq<IssueId>)
    | Commented(id: IssueId)

  predicate IsStaffEdit(cmd: Cmd) { cmd.SetStatus? || cmd.SetPriority? || cmd.Assign? }

  function Jira(w: World, id: IssueId, category: string, now: Time): World {
    match CategoryStatus(category)
    case None => w
    case Some(mapped) => EditNow(w, id, JiraStatus(mapped, now)).0
  }

  function Serve(w: World, r: Request): World {
    match r
    case Reported(id, platform, now) => Create(w, id, platform, now)
    case StaffEdit(id, cmd) => if IsStaffEdit(cmd) then EditNow(w, id, cmd).0 else w
    case BulkEdit(actor, ids, op, focal, now) => BulkRun(w, actor, ids, op, focal, now).0
    case MergeInto(actor, id, canonical, seen, now) => Merge(w, actor, id, canonical, seen, now).0
    case JiraWebhook(id, category, now) => Jira(w, id, category, now)
    case RuleRun(id, rules) => Automate(w, id, rules)
    case SweepRun(ids, now) => MarkAll(w, ids, now)
    case FanOut(ids) => TellAll(w, ids)
    case Commented(id) => Write(w, id, Touch)
  }

  function ServeAll(w: World, rs: seq<Request>): World {
    if rs == [] then w else Serve(ServeAll(w, rs[..|rs| - 1]), rs[|rs| - 1])
  }

  lemma ServeKeeps(w: World, r: Request)
    requires Sound(w) && Forest(w.issues)
    ensures Sound(Serve(w, r)) && Forest(Serve(w, r).issues)
  {
    match r
    case Reported(id, platform, now) =>
      CreateKeepsSound(w, id, platform, now);
      CreateKeepsForest(w, id, platform, now);
    case StaffEdit(id, cmd) =>
      if IsStaffEdit(cmd) {
        EditKeepsSound(w, id, cmd);
        EditKeepsForest(w, id, cmd);
      }
    case BulkEdit(actor, ids, op, focal, now) => BulkKeeps(w, actor, ids, op, focal, now);
    case MergeInto(actor, id, canonical, seen, now) =>
      MergeKeepsSound(w, actor, id, canonical, seen, now);
      MergeKeepsForest(w, actor, id, canonical, seen, now);
    case JiraWebhook(id, category, now) =>
      if CategoryStatus(category).Some? {
        EditKeepsSound(w, id, JiraStatus(CategoryStatus(category).value, now));
        EditKeepsForest(w, id, JiraStatus(CategoryStatus(category).value, now));
      }
    case RuleRun(id, rules) => RulesKeep(w, id, rules);
    case SweepRun(ids, now) => MarkAllKeeps(w, ids, now);
    case FanOut(ids) => TellAllKeeps(w, ids);
    case Commented(id) =>
      WriteKeepsRows(w, id, Touch);
      WriteKeepsReplayIffInStep(w, id, Touch);
      WriteKeepsForest(w, id, Touch);
  }

  /** From an empty store, every run of atomic requests keeps rows coherent, the
      log replaying to where every issue stands through sanctioned changes only,
      and the duplicate pointers a forest within platforms. */
  lemma {:induction false} EveryRunKeeps(rs: seq<Request>)
    ensures Sound(ServeAll(EMPTY_WORLD, rs)) && Forest(ServeAll(EMPTY_WORLD, rs).issues)
  {
    if rs != [] {
      EveryRunKeeps(rs[..|rs| - 1]);
      ServeKeeps(ServeAll(EMPTY_WORLD, rs[..|rs| - 1]), rs[|rs| - 1]);
    } else {
      EmptyWorldSound();
    }
  }

  // ---- When every run keeps pointers one hop deep ----------------------------

  lemma {:induction false} BulkDrops(w: World, actor: Staff, ids: seq<IssueId>, op: BulkOp, focal: bool, now: Time)
    ensures PointersOnlyDrop(w.issues, BulkRun(w, actor, ids, op, focal, now).0.issues)
  {
    if ids != [] {
      var front, last := ids[..|ids| - 1], ids[|ids| - 1];
      BulkDrops(w, actor, front, op, focal, now);
      var w1 := BulkRun(w, actor, front, op, focal, now).0;
      hide PointersOnlyDrop;
      var w2 := BulkOne(w1, actor, last, op, focal, now).0;
      if w2 != w1 {
        EditDropsPointers(w1, last, BulkCmd(actor, op, w1.issues[last].version, focal, now));
        DropsCompose(w.issues, w1.issues, w2.issues);
      }
    }
  }

  lemma RuleDrops(w: World, id: IssueId, mem: Copy, r: RuleAction)
    ensures PointersOnlyDrop(w.issues, RuleOne(w, id, mem, r).0.issues)
  {
  }

  lemma {:induction false} RunRulesDrops(w: World, id: IssueId, mem: Copy, rules: seq<RuleAction>)
    ensures PointersOnlyDrop(w.issues, RunRules(w, id, mem, rules).0.issues)
  {
    if rules != [] {
      var front := rules[..|rules| - 1];
      RunRulesDrops(w, id, mem, front);
      var (w1, mem1) := RunRules(w, id, mem, front);
      RuleDrops(w1, id, mem1, rules[|rules| - 1]);
      DropsCompose(w.issues, w1.issues, RuleOne(w1, id, mem1, rules[|rules| - 1]).0.issues);
    }
  }

  lemma {:induction false} MarkAllDrops(w: World, ids: seq<IssueId>, now: Time)
    ensures PointersOnlyDrop(w.issues, MarkAll(w, ids, now).issues)
  {
    if ids != [] {
      MarkAllDrops(w, ids[..|ids| - 1], now);
      WriteKeepsPointers(MarkAll(w, ids[..|ids| - 1], now), ids[|ids| - 1], MarkBreached(now));
    }
  }

  lemma ServeDrops(w: World, r: Request)
    requires !r.MergeInto?
    ensures PointersOnlyDrop(w.issues, Serve(w, r).issues)
  {
    match r
    case Reported(id, platform, now) =>
    case StaffEdit(id, cmd) => if IsStaffEdit(cmd) { EditDropsPointers(w, id, cmd); }
    case BulkEdit(actor, ids, op, focal, now) => BulkDrops(w, actor, ids, op, focal, now);
    case JiraWebhook(id, category, now) =>
      if CategoryStatus(category).Some? {
        EditDropsPointers(w, id, JiraStatus(CategoryStatus(category).value, now));
      }
    case RuleRun(id, rules) => if id in w.issues { RunRulesDrops(w, id, CopyOf(w.issues[id]), rules); }
    case SweepRun(ids, now) => MarkAllDrops(w, ids, now);
    case FanOut(ids) => TellAllNotes(w, ids);
    case Commented(id) => WriteKeepsPointers(w, id, Touch);
  }

  /** The request does not merge an issue that others are merged into. */
  ghost predicate MergesLeaf(w: World, r: Request) {
    r.MergeInto? && MergeTarget(w, r.id, r.canonical, r.seen).Ok? ==> forall d :: Parent(w.issues, d) != Some(r.id)
  }

  lemma ServeStaysFlatIff(w: World, r: Request)
    requires Forest(w.issues) && Flat(w.issues)
    ensures Flat(Serve(w, r).issues) <==> MergesLeaf(w, r)
  {
    if r.MergeInto? {
      if MergeTarget(w, r.id, r.canonical, r.seen).Ok? {
        MergeStaysFlatIff(w, r.actor, r.id, r.canonical, r.seen, r.now);
      }
    } else {
      ServeDrops(w, r);
      DroppingKeepsFlat(w.issues, Serve(w, r).issues);
    }
  }

  ghost predicate FlatThroughout(rs: seq<Request>) {
    (rs != [] ==> FlatThroughout(rs[..|rs| - 1])) && Flat(ServeAll(EMPTY_WORLD, rs).issues)
  }

  ghost predicate MergesOnlyLeaves(rs: seq<Request>) {
    rs != [] ==> MergesOnlyLeaves(rs[..|rs| - 1]) && MergesLeaf(ServeAll(EMPTY_WORLD, rs[..|rs| - 1]), rs[|rs| - 1])
  }

  /** Duplicate pointers are one hop deep throughout a run exactly when the run
      never merges an issue that has duplicates at that moment. */
  lemma {:induction false} PointersOneHopDeepIff(rs: seq<Request>)
    ensures FlatThroughout(rs) <==> MergesOnlyLeaves(rs)
  {
    if rs == [] {
      forall id ensures Hop(EMPTY_WORLD.issues, id, 2).None? { TwoHops(EMPTY_WORLD.issues, id); }
    } else {
      var front := rs[..|rs| - 1];
      PointersOneHopDeepIff(front);
      EveryRunKeeps(front);
      hide Flat, MergesLeaf, Serve;
      if FlatThroughout(front) {
        assert Flat(ServeAll(EMPTY_WORLD, front).issues);
        ServeStaysFlatIff(ServeAll(EMPTY_WORLD, front), rs[|rs| - 1]);
      }
    }
  }

  /** A run that goes wrong: the second issue is merged after the first was merged
      into it, and the first is then two hops from the third. */
  lemma ChainOfThree(actor: Staff, now: Time)
    ensures var rs := [Reported(1, 9, now), Reported(2, 9, now), Reported(3, 9, now),
                       MergeInto(actor, 1, 2, 1, now), MergeInto(actor, 2, 3, 1, now)];
            Hop(ServeAll(EMPTY_WORLD, rs).issues, 1, 2) == Some(3)
  {
    var r1, r2, r3 := Reported(1, 9, now), Reported(2, 9, now), Reported(3, 9, now);
    var r4, r5 := MergeInto(actor, 1, 2, 1, now), MergeInto(actor, 2, 3, 1, now);
    assert [r1, r2, r3, r4, r5][..4] == [r1, r2, r3, r4] && [r1, r2, r3, r4][..3] == [r1, r2, r3];
    assert [r1, r2, r3][..2] == [r1, r2] && [r1, r2][..1] == [r1] && [r1][..0] == [];
    var w := ServeAll(EMPTY_WORLD, [r1, r2, r3]);
    EveryRunKeeps([r1, r2, r3]);
    var blank := NewIssue(9, now);
    assert w.issues == map[1 := blank, 2 := blank, 3 := blank] by {
      assert ServeAll(EMPTY_WORLD, [r1]).issues == map[1 := blank];
      assert ServeAll(EMPTY_WORLD, [r1, r2]).issues == map[1 := blank, 2 := blank];
    }
    MergePoints(w, actor, 1, 2, 1, now);
    var w4 := Serve(w, r4);
    assert ServeAll(EMPTY_WORLD, [r1, r2, r3, r4]) == w4;
    EveryRunKeeps([r1, r2, r3, r4]);
    ChainsReachDepthTwo(w4, actor, 1, 2, 3, now);
  }
}
