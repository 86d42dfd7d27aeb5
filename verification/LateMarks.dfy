/** What the conditional update of the sweep does not prevent. It tests only that
    there is no mark, so between the select and the update the issue may have been
    closed, or reopened with a clock that runs anew; when the mark is still right,
    and two runs in which it is not. */
module LateMarks {
  import opened Basics
  import opened Access
  import opened Lifecycle
  import Store = OptimisticStore
  import opened IssueOperations
  import opened SlaSweep

  // ---- What happened to an issue during a stretch of a run --------------------

  /** The status a step moves issue `id` to, if it moves it. */
  function Move(w: World, a: Action, id: IssueId): Option<Status> {
    if a.Other? && a.op.Edited? && a.op.id == id && id in w.issues && EditNow(w, id, a.op.cmd).1.None?
       && (a.op.cmd.SetStatus? || a.op.cmd.JiraStatus? || a.op.cmd.CloseAsDuplicate?) then
      Some(match a.op.cmd
           case SetStatus(_, to, _, _, _) => to
           case JiraStatus(mapped, _) => ResolveTarget(w.issues[id].status, mapped)
           case _ => Closed)
    else None
  }

  /** When a step restarts the clock of issue `id`, if it does. */
  function Restart(w: World, a: Action, id: IssueId): Option<Time> {
    if Move(w, a, id) == Some(Reopened) && w.issues[id].status != Reopened then
      Some(match a.op.cmd
           case SetStatus(_, _, _, _, now) => now
           case JiraStatus(_, now) => now
           case _ => 0.0)
    else None
  }

  /** Where the last move of the stretch left the issue. */
  function LastMove(s: State, actions: seq<Action>, id: IssueId): Option<Status>
    decreases |actions|
  {
    if actions == [] then None
    else
      var front, last := actions[..|actions| - 1], actions[|actions| - 1];
      var here := Move(Run(s, front).world, last, id);
      if here.Some? then here else LastMove(s, front, id)
  }

  /** When the last reopening of the stretch was. */
  function LastRestart(s: State, actions: seq<Action>, id: IssueId): Option<Time>
    decreases |actions|
  {
    if actions == [] then None
    else
      var front, last := actions[..|actions| - 1], actions[|actions| - 1];
      var here := Restart(Run(s, front).world, last, id);
      if here.Some? then here else LastRestart(s, front, id)
  }

  lemma EditMoves(w: World, id: IssueId, cmd: Cmd)
    requires id in w.issues
    ensures var a, w' := Other(Store.Edited(id, cmd)), EditNow(w, id, cmd).0;
            && w'.issues.Keys == w.issues.Keys
            && (forall other <- w.issues :: other != id ==> w'.issues[other] == w.issues[other])
            && w'.issues[id].status == OrElse(Move(w, a, id), w.issues[id].status)
            && w'.issues[id].slaStartedAt == OrElse(Restart(w, a, id), w.issues[id].slaStartedAt)
            && w'.issues[id].platform == w.issues[id].platform
            && (Restart(w, a, id).Some? <==> Restarts(w, a.op, id))
  {
    if Decide(w.issues[id], cmd).Ok? {
      var edit := Decide(w.issues[id], cmd).value;
      var saved := Save(w, id, w.issues[id].version, edit).value;
      assert Aftermath(saved, id, cmd).issues == saved.issues;
      assert EditNow(w, id, cmd) == (Aftermath(saved, id, cmd), None);
    }
  }

  lemma StepMoves(s: State, a: Action, id: IssueId)
    requires id in s.world.issues
    ensures id in Step(s, a).world.issues
    ensures var row, now := s.world.issues[id], Step(s, a).world.issues[id];
            && now.platform == row.platform
            && now.status == OrElse(Move(s.world, a, id), row.status)
            && now.slaStartedAt == OrElse(Restart(s.world, a, id), row.slaStartedAt)
            && RestartsOf(Step(s, a), id) == RestartsOf(s, id) + if Restart(s.world, a, id).Some? then 1 else 0
  {
    if a.Other? && a.op.Edited? {
      if a.op.id in s.world.issues {
        EditMoves(s.world, a.op.id, a.op.cmd);
      }
      hide EditNow;
    }
  }

  /** The row after any stretch of a run: its status is where the last move left it,
      its clock runs from the last reopening, and the count of its cycles rose
      exactly if there was one. */
  lemma {:induction false} StretchMoves(s: State, actions: seq<Action>, id: IssueId)
    requires id in s.world.issues
    ensures id in Run(s, actions).world.issues
    ensures var row, now := s.world.issues[id], Run(s, actions).world.issues[id];
            && now.platform == row.platform
            && now.status == OrElse(LastMove(s, actions, id), row.status)
            && now.slaStartedAt == OrElse(LastRestart(s, actions, id), row.slaStartedAt)
    ensures RestartsOf(Run(s, actions), id) >= RestartsOf(s, id)
    ensures RestartsOf(Run(s, actions), id) == RestartsOf(s, id) <==> LastRestart(s, actions, id).None?
    decreases |actions|
  {
    if actions != [] {
      var front, last := actions[..|actions| - 1], actions[|actions| - 1];
      StretchMoves(s, front, id);
      StepMoves(Run(s, front), last, id);
      hide Step, Move, Restart;
    }
  }

  // ---- When a late mark is still right ------------------------------------------

  /** Sweeper `k` is about to update issue `id`, which has no mark. */
  predicate AboutToMark(s: State, k: nat, id: IssueId) {
    && k in s.sweepers && s.sweepers[k].todo != [] && s.sweepers[k].todo[0] == id && s.sweepers[k].pending.None?
    && id in s.world.issues && s.world.issues[id].slaBreachedAt.None?
  }

  /** A mark that comes after any stretch of other steps goes through, and is kept
      for a report as made in the cycle then running. The issue is at that moment open and past
      due exactly when the stretch did not leave it closed, and its window, counted
      from the last reopening or else from where it ran before, is over. */
  lemma LateMarkIff(s: State, between: seq<Action>, k: nat, id: IssueId, windows: Windows, now: Time)
    requires id in s.world.issues && IsOpen(s.world.issues[id].status)
    requires AboutToMark(Run(s, between), k, id)
    ensures var t, t' := Run(s, between), Step(Run(s, between), Mark(k, now));
            && id in t'.world.issues && t'.world.issues[id].slaBreachedAt == Some(now)
            && k in t'.sweepers && t'.sweepers[k].pending == Some((id, RestartsOf(t, id)))
    ensures var t, t' := Run(s, between), Step(Run(s, between), Mark(k, now));
            (IsOpen(t'.world.issues[id].status) && PastDue(t'.world.issues[id], windows, now)
       <==> (&& IsOpen(OrElse(LastMove(s, between, id), s.world.issues[id].status))
             && now >= OrElse(LastRestart(s, between, id), s.world.issues[id].slaStartedAt)
                       + windows(t.world.issues[id].platform, t.world.issues[id].priority)))
  {
    StretchMoves(s, between, id);
    hide LastMove, LastRestart, Run;
  }

  /** For an issue that was selected, and whose window no change of priority has
      widened since, that comes to this: the mark is right exactly when the issue was
      not left closed and not reopened within one window before the mark. If every
      reopening since is that recent, it is right exactly when there was none. */
  lemma LateMarkOfSelectedIff(s: State, between: seq<Action>, k: nat, id: IssueId, windows: Windows, selected: Time,
                              now: Time)
    requires id in s.world.issues && Escalatable(s.world.issues[id], windows, selected) && selected <= now
    requires AboutToMark(Run(s, between), k, id)
    requires var i, j := s.world.issues[id], Run(s, between).world.issues[id];
             windows(i.platform, j.priority) <= windows(i.platform, i.priority)
    ensures var t, t' := Run(s, between), Step(Run(s, between), Mark(k, now));
            var row, restart := t'.world.issues[id], LastRestart(s, between, id);
            var recent := restart.Some? && now < restart.value + windows(row.platform, row.priority);
            && (IsOpen(row.status) && PastDue(row, windows, now)
                <==> IsOpen(OrElse(LastMove(s, between, id), s.world.issues[id].status)) && !recent)
            && ((restart.Some? ==> recent) ==> (PastDue(row, windows, now) <==> RestartsOf(t, id) == RestartsOf(s, id)))
  {
    StretchMoves(s, between, id);
    hide LastMove, LastRestart, Run;
  }

  // ---- Two runs in which it is not -----------------------------------------------

  lemma RunSnoc(s: State, actions: seq<Action>, a: Action)
    ensures Run(s, actions + [a]) == Step(Run(s, actions), a)
  {
    assert (actions + [a])[..|actions|] == actions;
  }

  /** An issue filed at time zero, and a sweep that has selected it. */
  function Filed(p: PlatformId): seq<Action> { [Other(Store.Born(1, p, 0.0)), Select(0, [1])] }

  lemma FiledIsSelected(p: PlatformId, windows: Windows)
    requires windows(p, Medium) > 0.0
    ensures var s := Run(START, Filed(p));
            && s.world.issues == map[1 := NewIssue(p, 0.0)] && s.sweepers == map[0 := Sweeper([1], None)]
            && s.restarts == map[] && s.emitted == []
            && Selected(s.world, [1], windows, windows(p, Medium))
  {
    RunSnoc(START, [], Other(Store.Born(1, p, 0.0)));
    RunSnoc(START, [Other(Store.Born(1, p, 0.0))], Select(0, [1]));
    assert [] + [Other(Store.Born(1, p, 0.0))] == [Other(Store.Born(1, p, 0.0))];
    assert Filed(p) == [Other(Store.Born(1, p, 0.0))] + [Select(0, [1])];
    assert Run(START, []) == START;
  }

  lemma JiraEdits(s: State, id: IssueId, mapped: Status, now: Time)
    requires id in s.world.issues && ResolveTarget(s.world.issues[id].status, mapped) != s.world.issues[id].status
    ensures var i, to := s.world.issues[id], ResolveTarget(s.world.issues[id].status, mapped);
            var t := Step(s, Other(Store.Edited(id, JiraStatus(mapped, now))));
            && t.world.issues == s.world.issues[id := SideEffects(i.(status := to), to, now).(version := i.version + 1)]
            && t.sweepers == s.sweepers && t.emitted == s.emitted
            && t.restarts == if to == Reopened then s.restarts[id := RestartsOf(s, id) + 1] else s.restarts
  {
    var w, cmd := s.world, JiraStatus(mapped, now);
    var saved := Save(w, id, w.issues[id].version, Decide(w.issues[id], cmd).value).value;
    assert EditNow(w, id, cmd) == (Aftermath(saved, id, cmd), None);
  }

  lemma MarkThenEmit(s: State, k: nat, id: IssueId, now: Time)
    requires AboutToMark(s, k, id)
    ensures var t := Step(Step(s, Mark(k, now)), Emit(k));
            && t.emitted == s.emitted + [Report(id, RestartsOf(s, id), RestartsOf(s, id))]
            && var i := s.world.issues[id];
               t.world.issues == s.world.issues[id := i.(slaBreachedAt := Some(now), version := i.version + 1)]
  {
  }

  function Resolve(at: Time): Action { Other(Store.Edited(1, JiraStatus(Resolved, at))) }

  function Reopen(at: Time): Action { Other(Store.Edited(1, JiraStatus(New, at))) }

  lemma ResolvedThenMarked(s: State, p: PlatformId, resolved: Time, now: Time)
    requires s.world.issues == map[1 := NewIssue(p, 0.0)] && s.sweepers == map[0 := Sweeper([1], None)]
    requires s.restarts == map[] && s.emitted == []
    ensures var t := Step(Step(Step(s, Resolve(resolved)), Mark(0, now)), Emit(0));
            t.emitted == [Report(1, 0, 0)] && 1 in t.world.issues && t.world.issues[1].status == Resolved
  {
    JiraEdits(s, 1, Resolved, resolved);
    MarkThenEmit(Step(s, Resolve(resolved)), 0, 1, now);
    hide Step;
  }

  /** Selected, then resolved: the sweep still marks the issue and reports it, though
      it is not open any more. */
  lemma StaleSweepMarksResolved(p: PlatformId, windows: Windows, resolved: Time, now: Time)
    requires 0.0 < windows(p, Medium) <= resolved <= now
    ensures var t := Run(START, Filed(p) + [Resolve(resolved), Mark(0, now), Emit(0)]);
            t.emitted == [Report(1, 0, 0)] && 1 in t.world.issues && t.world.issues[1].status == Resolved
  {
    var resolve := Resolve(resolved);
    FiledIsSelected(p, windows);
    RunSnoc(START, Filed(p), resolve);
    RunSnoc(START, Filed(p) + [resolve], Mark(0, now));
    RunSnoc(START, Filed(p) + [resolve] + [Mark(0, now)], Emit(0));
    assert Filed(p) + [resolve, Mark(0, now), Emit(0)] == Filed(p) + [resolve] + [Mark(0, now)] + [Emit(0)];
    hide Run, Filed, Selected, Step, Resolve;
    ResolvedThenMarked(Run(START, Filed(p)), p, resolved, now);
  }

  lemma ReopenedThenMarked(s: State, p: PlatformId, reopened: Time, now: Time)
    requires s.world.issues == map[1 := NewIssue(p, 0.0)] && s.sweepers == map[0 := Sweeper([1], None)]
    requires s.restarts == map[] && s.emitted == []
    ensures var t := Step(Step(Step(Step(s, Resolve(reopened)), Reopen(reopened)), Mark(0, now)), Emit(0));
            && t.emitted == [Report(1, 1, 1)] && 1 in t.world.issues && t.world.issues[1].status == Reopened
            && t.world.issues[1].platform == p && t.world.issues[1].priority == Medium
            && t.world.issues[1].slaStartedAt == reopened
  {
    JiraEdits(s, 1, Resolved, reopened);
    var s1 := Step(s, Resolve(reopened));
    JiraEdits(s1, 1, New, reopened);
    var s2 := Step(s1, Reopen(reopened));
    MarkThenEmit(s2, 0, 1, now);
    hide Step;
  }

  /** Selected, then resolved and reopened: the sweep marks the new cycle and reports
      it, though its window has only begun. */
  lemma StaleSweepMarksFreshCycle(p: PlatformId, windows: Windows, reopened: Time, now: Time)
    requires 0.0 < windows(p, Medium) <= reopened <= now < reopened + windows(p, Medium)
    ensures var t := Run(START, Filed(p) + [Resolve(reopened), Reopen(reopened), Mark(0, now), Emit(0)]);
            && t.emitted == [Report(1, 1, 1)] && 1 in t.world.issues && t.world.issues[1].status == Reopened
            && !PastDue(t.world.issues[1], windows, now)
  {
    var resolve, reopen := Resolve(reopened), Reopen(reopened);
    FiledIsSelected(p, windows);
    RunSnoc(START, Filed(p), resolve);
    RunSnoc(START, Filed(p) + [resolve], reopen);
    RunSnoc(START, Filed(p) + [resolve] + [reopen], Mark(0, now));
    RunSnoc(START, Filed(p) + [resolve] + [reopen] + [Mark(0, now)], Emit(0));
    assert Filed(p) + [resolve, reopen, Mark(0, now), Emit(0)] ==
        Filed(p) + [resolve] + [reopen] + [Mark(0, now)] + [Emit(0)];
    hide Run, Filed, Selected, Step, Resolve, Reopen;
    ReopenedThenMarked(Run(START, Filed(p)), p, reopened, now);
  }
}
