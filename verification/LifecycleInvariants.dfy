/** What every write keeps of the issue rows and of the audit log. */
module LifecycleInvariants {
  import opened Basics
  import opened Access
  import opened Lifecycle

  // ---- Timestamps against status -------------------------------------------

  /** A live issue has no resolution, closing or duplicate mark; a resolved one
      says when; a closed one says when; a duplicate is closed, or was. */
  predicate Coherent(i: Issue) {
    && (IsOpen(i.status) ==> i.resolvedAt.None? && i.closedAt.None? && i.duplicateOf.None?)
    && (i.status == Resolved ==> i.resolvedAt.Some?)
    && (i.status == Closed ==> i.closedAt.Some?)
    && (i.duplicateOf.Some? ==> i.status in {Closed, Resolved} && i.closedAt.Some?)
  }

  lemma EditKeepsCoherent(i: Issue, cmd: Cmd)
    requires Coherent(i) && Decide(i, cmd).Ok?
    requires cmd.JiraStatus? ==> cmd.mapped in {New, InProgress, Resolved}
    ensures Coherent(Decide(i, cmd).value.row)
  {
  }

  /** Coming back to life, whoever asks for it, is always a reopening: the old
      marks go, the SLA clock starts again, and its breach is forgotten. No other
      edit moves the clock. */
  lemma OnlyReopeningRevives(i: Issue, cmd: Cmd)
    requires Decide(i, cmd).Ok? && FromCategory(cmd)
    ensures var row := Decide(i, cmd).value.row;
            && (!IsOpen(i.status) && IsOpen(row.status) ==> row.status == Reopened)
            && (row.status == Reopened && i.status != Reopened ==>
                  && row.resolvedAt.None? && row.closedAt.None? && row.duplicateOf.None? && row.slaBreachedAt.None?
                  && (cmd.SetStatus? || cmd.JiraStatus?) && row.slaStartedAt == cmd.now)
            && (row.status == i.status || row.status != Reopened ==>
                  row.slaStartedAt == i.slaStartedAt && row.slaBreachedAt == i.slaBreachedAt)
  {
  }

  /** Resolved and closed at once. */
  predicate ResolvedAndClosed(i: Issue) { i.status == Resolved && i.closedAt.Some? }

  /** An edit makes a row resolved and closed at once exactly when Jira calls a
      CLOSED issue done; otherwise only a row that was so already stays so. */
  lemma BothMarksIff(i: Issue, cmd: Cmd)
    requires Coherent(i) && Decide(i, cmd).Ok? && FromCategory(cmd)
    ensures ResolvedAndClosed(Decide(i, cmd).value.row)
       <==> || (cmd.JiraStatus? && cmd.mapped == Resolved && i.status == Closed)
            || ((cmd.SetPriority? || cmd.Assign?) && ResolvedAndClosed(i))
  {
  }

  /** An edit changes what it is about and nothing else. */
  lemma EditsKeepTheRest(i: Issue, cmd: Cmd)
    requires Decide(i, cmd).Ok?
    ensures var row := Decide(i, cmd).value.row;
            && row.platform == i.platform && row.version == i.version
            && (row.priority != i.priority ==> cmd.SetPriority?) && (row.assignee != i.assignee ==> cmd.Assign?)
            && (cmd.SetPriority? || cmd.Assign? ==> row.(priority := i.priority, assignee := i.assignee) == i)
  {
  }

  // ---- The audit log replayed ----------------------------------------------

  datatype Replayed = Absent | Broken | At(status: Status, priority: Priority)

  function ReplayOne(r: Replayed, c: Change): Replayed {
    match c
    case Creation => if r == Absent then At(New, Medium) else Broken
    case StatusChange(from, to, _) =>
      if r.At? && r.status == from && from != to then At(to, r.priority) else Broken
    case PriorityChange(from, to) =>
      if r.At? && r.priority == from && from != to then At(r.status, to) else Broken
    case _ => r
  }

  /** Follows one issue through the log; any record that does not start where the
      one before it ended, or that changes nothing, breaks the trail. */
  function Replay(audit: seq<Entry>, id: IssueId): Replayed {
    if audit == [] then Absent
    else
      var before := Replay(audit[..|audit| - 1], id);
      var last := audit[|audit| - 1];
      if last.issue == id then ReplayOne(before, last.change) else before
  }

  function Standing(w: World, id: IssueId): Replayed {
    if id in w.issues then At(w.issues[id].status, w.issues[id].priority) else Absent
  }

  /** The log tells exactly where every issue stands. */
  ghost predicate LogReplays(w: World) {
    forall id :: Replay(w.audit, id) == Standing(w, id)
  }

  function ReplayChanges(r: Replayed, cs: seq<Change>): Replayed
    decreases |cs|
  {
    if cs == [] then r else ReplayChanges(ReplayOne(r, cs[0]), cs[1..])
  }

  lemma {:induction false} ReplaySnoc(audit: seq<Entry>, e: Entry, id: IssueId)
    ensures Replay(audit + [e], id) ==
            if e.issue == id then ReplayOne(Replay(audit, id), e.change) else Replay(audit, id)
  {
  }

  lemma {:induction false} ReplayAppend(audit: seq<Entry>, id: IssueId, cs: seq<Change>, other: IssueId)
    ensures Replay(audit + Entries(id, cs), other) ==
            if other == id then ReplayChanges(Replay(audit, other), cs) else Replay(audit, other)
    decreases cs
  {
    if cs == [] {
      assert audit + Entries(id, cs) == audit;
    } else {
      var first := audit + [Entry(id, cs[0])];
      ReplaySnoc(audit, Entry(id, cs[0]), other);
      ReplayAppend(first, id, cs[1..], other);
      assert audit + Entries(id, cs) == first + Entries(id, cs[1..]);
    }
  }

  /** A trail once broken stays broken, whatever is recorded next. */
  lemma {:induction false} BrokenStays(audit: seq<Entry>, more: seq<Entry>, id: IssueId)
    requires Replay(audit, id) == Broken
    ensures Replay(audit + more, id) == Broken
    decreases |more|
  {
    if more == [] {
      assert audit + more == audit;
    } else {
      var front, last := more[..|more| - 1], more[|more| - 1];
      BrokenStays(audit, front, id);
      ReplaySnoc(audit + front, last, id);
      assert audit + more == (audit + front) + [last];
    }
  }

  // ---- Which status changes the log may hold -------------------------------

  /** Staff changes follow the status machine; a merge closes something open or
      resolved; Jira never writes CLOSED or ON_HOLD. */
  predicate Sanctioned(c: Change) {
    c.StatusChange? ==>
      match c.source
      case ByStaff => CanTransition(c.from, c.to)
      case ByMerge => c.from != Closed && c.to == Closed
      case ByJira =>
        && c.from != c.to && c.to in {New, InProgress, Resolved, Reopened}
        && (c.from in {Resolved, Closed} && c.to != Resolved ==> c.to == Reopened)
  }

  ghost predicate LogSanctioned(w: World) {
    forall k :: 0 <= k < |w.audit| ==> Sanctioned(w.audit[k].change)
  }

  ghost predicate RowsCoherent(w: World) {
    forall id <- w.issues :: Coherent(w.issues[id])
  }

  ghost predicate Sound(w: World) {
    RowsCoherent(w) && LogReplays(w) && LogSanctioned(w)
  }

  /** Jira statuses come from the category table. */
  predicate FromCategory(cmd: Cmd) {
    cmd.JiraStatus? ==> cmd.mapped in {New, InProgress, Resolved}
  }

  /** The last change of status on record for an issue. */
  function LastStatusChange(audit: seq<Entry>, id: IssueId): Option<Change> {
    if audit == [] then None
    else
      var last := audit[|audit| - 1];
      if last.issue == id && last.change.StatusChange? then Some(last.change)
      else LastStatusChange(audit[..|audit| - 1], id)
  }

  /** The issues that are resolved and closed at once are those that Jira took from
      CLOSED to RESOLVED, and nobody moved since. */
  ghost predicate MarksExplained(w: World) {
    && (forall id <- w.issues ::
          (ResolvedAndClosed(w.issues[id])
           <==> LastStatusChange(w.audit, id) == Some(StatusChange(Closed, Resolved, ByJira))))
    && (forall e <- w.audit :: e.issue in w.issues)
  }

  lemma LastOfOne(audit: seq<Entry>, e: Entry, id: IssueId)
    ensures LastStatusChange(audit + [e], id)
            == if e.issue == id && e.change.StatusChange? then Some(e.change) else LastStatusChange(audit, id)
  {
    assert (audit + [e])[..|audit + [e]| - 1] == audit;
  }

  lemma {:induction false} NoStatusChange(audit: seq<Entry>, id: IssueId, cs: seq<Change>, other: IssueId)
    requires id != other || forall k :: 0 <= k < |cs| ==> !cs[k].StatusChange?
    ensures LastStatusChange(audit + Entries(id, cs), other) == LastStatusChange(audit, other)
    decreases |cs|
  {
    if cs == [] {
      assert audit + Entries(id, cs) == audit;
    } else {
      var front, last := cs[..|cs| - 1], cs[|cs| - 1];
      NoStatusChange(audit, id, front, other);
      assert audit + Entries(id, cs) == (audit + Entries(id, front)) + [Entry(id, last)];
      LastOfOne(audit + Entries(id, front), Entry(id, last), other);
    }
  }

  lemma {:induction false} NeverSeen(audit: seq<Entry>, id: IssueId)
    requires forall e <- audit :: e.issue != id
    ensures LastStatusChange(audit, id).None?
  {
    if audit != [] {
      NeverSeen(audit[..|audit| - 1], id);
    }
  }

  /** The last change of status an accepted edit records. */
  lemma LastDecided(i: Issue, cmd: Cmd, audit: seq<Entry>, id: IssueId)
    requires Decide(i, cmd).Ok?
    ensures LastStatusChange(audit + Entries(id, Decide(i, cmd).value.changes), id) ==
            match cmd
            case SetStatus(_, to, _, _, _) => Some(StatusChange(i.status, to, ByStaff))
            case JiraStatus(mapped, _) => Some(StatusChange(i.status, ResolveTarget(i.status, mapped), ByJira))
            case CloseAsDuplicate(_, _, _, _) => Some(StatusChange(i.status, Closed, ByMerge))
            case _ => LastStatusChange(audit, id)
  {
    var cs := Decide(i, cmd).value.changes;
    if cmd.SetPriority? || cmd.Assign? {
      NoStatusChange(audit, id, cs, id);
    } else {
      var front, last := cs[..|cs| - 1], cs[|cs| - 1];
      assert audit + Entries(id, cs) == (audit + Entries(id, front)) + [Entry(id, last)];
      LastOfOne(audit + Entries(id, front), Entry(id, last), id);
    }
  }

  lemma EditedRowExplained(i: Issue, cmd: Cmd, audit: seq<Entry>, id: IssueId)
    requires Coherent(i) && FromCategory(cmd) && Decide(i, cmd).Ok?
    requires ResolvedAndClosed(i) <==> LastStatusChange(audit, id) == Some(StatusChange(Closed, Resolved, ByJira))
    ensures var edit := Decide(i, cmd).value;
            var recorded := LastStatusChange(audit + Entries(id, edit.changes), id);
            ResolvedAndClosed(edit.row) <==> recorded == Some(StatusChange(Closed, Resolved, ByJira))
  {
    BothMarksIff(i, cmd);
    LastDecided(i, cmd, audit, id);
    hide Coherent, LastStatusChange;
  }

  lemma EditedWorld(w: World, id: IssueId, cmd: Cmd)
    requires id in w.issues && Decide(w.issues[id], cmd).Ok?
    ensures var i, edit, w' := w.issues[id], Decide(w.issues[id], cmd).value, EditNow(w, id, cmd).0;
            && w'.issues == w.issues[id := edit.row.(version := i.version + 1)]
            && w'.audit == w.audit + Entries(id, edit.changes)
  {
    var saved := Save(w, id, w.issues[id].version, Decide(w.issues[id], cmd).value).value;
    assert EditNow(w, id, cmd).0 == Aftermath(saved, id, cmd);
  }

  /** Every edit of the row as it stands keeps the marks explained. */
  lemma EditKeepsExplained(w: World, id: IssueId, cmd: Cmd)
    requires RowsCoherent(w) && MarksExplained(w) && id in w.issues && FromCategory(cmd)
    requires Decide(w.issues[id], cmd).Ok?
    ensures MarksExplained(EditNow(w, id, cmd).0)
  {
    hide EditNow, Decide, Coherent, FromCategory, LastStatusChange;
    var i, edit, w' := w.issues[id], Decide(w.issues[id], cmd).value, EditNow(w, id, cmd).0;
    EditedWorld(w, id, cmd);
    EditedRowExplained(i, cmd, w.audit, id);
    forall other | other in w.issues && other != id
      ensures LastStatusChange(w'.audit, other) == LastStatusChange(w.audit, other)
    {
      NoStatusChange(w.audit, id, edit.changes, other);
    }
  }

  lemma WriteKeepsExplained(w: World, id: IssueId, b: Blind)
    requires MarksExplained(w)
    ensures MarksExplained(Write(w, id, b))
  {
    if Affects(w, id, b) {
      forall other ensures LastStatusChange(Write(w, id, b).audit, other) == LastStatusChange(w.audit, other) {
        NoStatusChange(w.audit, id, BlindChanges(b), other);
      }
    }
  }

  lemma CreateKeepsExplained(w: World, id: IssueId, platform: PlatformId, now: Time)
    requires MarksExplained(w)
    ensures MarksExplained(Create(w, id, platform, now))
  {
    if id !in w.issues {
      NeverSeen(w.audit, id);
      forall other
        ensures LastStatusChange(w.audit + [Entry(id, Creation)], other) == LastStatusChange(w.audit, other)
      {
        LastOfOne(w.audit, Entry(id, Creation), other);
      }
    }
  }

  // ---- Every write keeps them ----------------------------------------------

  lemma DecidedReplay(i: Issue, cmd: Cmd)
    requires Decide(i, cmd).Ok?
    ensures var e := Decide(i, cmd).value;
            ReplayChanges(At(i.status, i.priority), e.changes) == At(e.row.status, e.row.priority)
  {
    var changes := Decide(i, cmd).value.changes;
    var r := At(i.status, i.priority);
    if cmd.CloseAsDuplicate? {
      var rest := changes[1..];
      assert rest == [changes[1]] && rest[1..] == [];
      var merged := ReplayOne(r, changes[0]);
      assert ReplayChanges(r, changes) == ReplayChanges(merged, rest);
      assert ReplayChanges(merged, rest) == ReplayChanges(ReplayOne(merged, changes[1]), rest[1..]);
    } else {
      assert changes == [changes[0]];
      assert |changes[1..]| == 0;
      assert ReplayChanges(r, changes) == ReplayOne(r, changes[0]);
    }
  }

  lemma DecidedSanctioned(i: Issue, cmd: Cmd)
    requires Decide(i, cmd).Ok? && FromCategory(cmd)
    ensures forall k :: 0 <= k < |Decide(i, cmd).value.changes| ==> Sanctioned(Decide(i, cmd).value.changes[k])
  {
  }

  lemma LogGrows(w: World, id: IssueId, row: Issue, cs: seq<Change>)
    requires LogReplays(w) && id in w.issues
    requires ReplayChanges(Standing(w, id), cs) == At(row.status, row.priority)
    ensures LogReplays(w.(issues := w.issues[id := row], audit := w.audit + Entries(id, cs)))
  {
    var w' := w.(issues := w.issues[id := row], audit := w.audit + Entries(id, cs));
    forall other ensures Replay(w'.audit, other) == Standing(w', other) {
      ReplayAppend(w.audit, id, cs, other);
    }
  }

  lemma SavedSound(w: World, id: IssueId, cmd: Cmd)
    requires Sound(w) && FromCategory(cmd) && id in w.issues && Decide(w.issues[id], cmd).Ok?
    ensures var e := Decide(w.issues[id], cmd).value;
            Save(w, id, w.issues[id].version, e).Some?
            && Sound(Save(w, id, w.issues[id].version, e).value)
  {
    var e := Decide(w.issues[id], cmd).value;
    var row := e.row.(version := w.issues[id].version + 1);
    EditKeepsCoherent(w.issues[id], cmd);
    DecidedReplay(w.issues[id], cmd);
    DecidedSanctioned(w.issues[id], cmd);
    LogGrows(w, id, row, e.changes);
  }

  /** Any staff edit, Jira update or merge close, made on the current row. */
  lemma {:induction false} EditKeepsSound(w: World, id: IssueId, cmd: Cmd)
    requires Sound(w) && FromCategory(cmd)
    ensures Sound(EditNow(w, id, cmd).0)
  {
    if id in w.issues && Decide(w.issues[id], cmd).Ok? {
      SavedSound(w, id, cmd);
      var w' := Save(w, id, w.issues[id].version, Decide(w.issues[id], cmd).value).value;
      assert Aftermath(w', id, cmd).issues == w'.issues && Aftermath(w', id, cmd).audit == w'.audit;
      assert forall other :: Standing(Aftermath(w', id, cmd), other) == Standing(w', other);
    }
  }

  /** What an unguarded priority write has to find: the priority its author still
      has in memory, which differs from the one it writes. */
  predicate InStep(w: World, id: IssueId, b: Blind) {
    b.WritePriority? && id in w.issues ==>
      b.from == w.issues[id].priority && b.from != b.priority
  }

  lemma WriteKeepsRows(w: World, id: IssueId, b: Blind)
    requires RowsCoherent(w) && LogSanctioned(w)
    ensures RowsCoherent(Write(w, id, b)) && LogSanctioned(Write(w, id, b))
  {
  }

  lemma BlindReplay(r: Replayed, b: Blind)
    ensures ReplayChanges(r, BlindChanges(b)) ==
            if b.WritePriority? then ReplayOne(r, PriorityChange(b.from, b.priority)) else r
  {
  }

  /** A blind update keeps the log replayable exactly when, if it writes a
      priority, the author's copy of it was current and the value new. */
  lemma WriteKeepsReplayIffInStep(w: World, id: IssueId, b: Blind)
    requires LogReplays(w)
    ensures LogReplays(Write(w, id, b)) <==> InStep(w, id, b)
  {
    if Affects(w, id, b) {
      BlindReplay(Standing(w, id), b);
      if InStep(w, id, b) {
        LogGrows(w, id, BlindRow(w.issues[id], b), BlindChanges(b));
      } else {
        WriteOutOfStepBreaks(w, id, b);
      }
    }
  }

  lemma WriteOutOfStepBreaks(w: World, id: IssueId, b: Blind)
    requires LogReplays(w) && !InStep(w, id, b)
    ensures Replay(Write(w, id, b).audit, id) == Broken
  {
    BlindReplay(Standing(w, id), b);
    ReplayAppend(w.audit, id, BlindChanges(b), id);
  }

  lemma CreateKeepsSound(w: World, id: IssueId, platform: PlatformId, now: Time)
    requires Sound(w)
    ensures Sound(Create(w, id, platform, now))
  {
  }

  lemma EmptyWorldSound()
    ensures Sound(EMPTY_WORLD)
  {
  }
}
