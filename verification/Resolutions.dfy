/** Who hears that an issue is resolved. A staff edit of the status sends an event,
    and the listener tells whoever is a duplicate of the issue when it looks; merges
    and updates from Jira send none. */
module Resolutions {
  import opened Basics
  import opened Access
  import opened Lifecycle
  import opened LifecycleInvariants
  import opened OptimisticStore
  import opened Duplicates
  import opened IssueOperations

  // ---- A resolution and its fan-out ------------------------------------------

  /** The step takes issue `id` from another status to RESOLVED. */
  predicate Resolves(s: State, a: Action, id: IssueId) {
    && Succeeds(s, a) && s.sessions[a.sid].id == id
    && id in s.world.issues && s.world.issues[id].status != Resolved
    && id in Step(s, a).world.issues && Step(s, a).world.issues[id].status == Resolved
  }

  /** The status a step announces to those who listen for changes of it. */
  function Announced(s: State, a: Action): Option<Status> {
    if Succeeds(s, a) && a.cmd.SetStatus? then Some(a.cmd.to) else None
  }

  /** The listener, which looks when the issues are `issues`, tells `told`, in
      whatever order the query lists them. */
  ghost predicate Tells(event: Option<Status>, issues: Issues, id: IssueId, told: seq<IssueId>) {
    if event == Some(Resolved) then forall d :: d in told <==> DirectDuplicate(issues, d, id)
    else told == []
  }

  /** What is written when `told` are told. */
  function NewNotes(w: World, told: seq<IssueId>): (r: seq<Note>)
    ensures TellAll(w, told).notes == w.notes + r
  {
    TellAllNotes(w, told);
    TellAll(w, told).notes[|w.notes|..]
  }

  /** Every duplicate of `id` gets a note when `told` are told. */
  ghost predicate EveryoneHears(issues: Issues, id: IssueId, w: World, told: seq<IssueId>) {
    forall d :: TransitiveDuplicate(issues, d, id) ==> Note(d, None, ProblemResolved) in NewNotes(w, told)
  }

  lemma NotedAreTold(w: World, told: seq<IssueId>, d: IssueId)
    ensures Note(d, None, ProblemResolved) in NewNotes(w, told) <==> d in told
  {
    TellAllNotes(w, told);
    assert NewNotes(w, told) == ResolvedNotes(told);
    if d in told {
      var k :| 0 <= k < |told| && told[k] == d;
      assert ResolvedNotes(told)[k] == Note(d, None, ProblemResolved);
    }
  }

  /** An issue is resolved exactly by a staff edit or an update from Jira that goes
      through and says so, and only the former announces it. */
  lemma WhoResolves(s: State, a: Action, id: IssueId)
    requires SessionsSeen(s)
    ensures Resolves(s, a, id)
       <==> && Succeeds(s, a) && s.sessions[a.sid].id == id
            && ((a.cmd.SetStatus? && a.cmd.to == Resolved) || (a.cmd.JiraStatus? && a.cmd.mapped == Resolved))
    ensures Resolves(s, a, id) ==> (a.cmd.SetStatus? <==> Announced(s, a) == Some(Resolved))
  {
    if Succeeds(s, a) {
      SuccessfulSave(s, a);
      hide SessionsSeen, Step, EditNow;
    }
  }

  // ---- What becomes of a pointer while the listener waits ----------------------

  /** Where a step points issue `d`, if it sets its pointer: a merge to its
      canonical, a reopening nowhere. */
  function Repoint(s: State, a: Action, d: IssueId): Option<Option<IssueId>> {
    if Succeeds(s, a) && s.sessions[a.sid].id == d && d in s.world.issues then
      match a.cmd
      case CloseAsDuplicate(_, canonical, _, _) => Some(Some(canonical))
      case SetStatus(_, to, _, _, _) => if to == Reopened then Some(None) else None
      case JiraStatus(mapped, _) =>
        if ResolveTarget(s.world.issues[d].status, mapped) == Reopened then Some(None) else None
      case _ => None
    else None
  }

  /** The last pointer set during a stretch of a run. */
  function LastPointer(s: State, actions: seq<Action>, d: IssueId): Option<Option<IssueId>>
    decreases |actions|
  {
    if actions == [] then None
    else
      var later := LastPointer(Step(s, actions[0]), actions[1..], d);
      if later.Some? then later else Repoint(s, actions[0], d)
  }

  lemma EditPoints(i: Issue, cmd: Cmd)
    requires Decide(i, cmd).Ok?
    ensures Decide(i, cmd).value.row.duplicateOf ==
            match cmd
            case CloseAsDuplicate(_, canonical, _, _) => Some(canonical)
            case SetStatus(_, to, _, _, _) => if to == Reopened then None else i.duplicateOf
            case JiraStatus(mapped, _) => if ResolveTarget(i.status, mapped) == Reopened then None else i.duplicateOf
            case _ => i.duplicateOf
  {
  }

  lemma StepPoints(s: State, a: Action, d: IssueId)
    requires SessionsSeen(s)
    ensures Parent(Step(s, a).world.issues, d) == OrElse(Repoint(s, a, d), Parent(s.world.issues, d))
  {
    if a.Committing? {
      if Succeeds(s, a) {
        SuccessfulSave(s, a);
        EditPoints(s.world.issues[s.sessions[a.sid].id], a.cmd);
        hide SessionsSeen, Succeeds, Step, EditNow, Decide;
      } else {
        FailedSave(s, a);
        hide Step;
      }
    }
  }

  lemma {:induction false} StretchPoints(s: State, actions: seq<Action>, d: IssueId)
    requires SessionsSeen(s)
    ensures Parent(Run(s, actions).world.issues, d) == OrElse(LastPointer(s, actions, d), Parent(s.world.issues, d))
    decreases |actions|
  {
    if actions != [] {
      StepPoints(s, actions[0], d);
      StepKeepsSessionsSeen(s, actions[0]);
      hide Step, SessionsSeen, Repoint, Parent;
      StretchPoints(Step(s, actions[0]), actions[1..], d);
    }
  }

  // ---- When everyone hears -------------------------------------------------------

  /** Whatever happens between a resolution and the look of the listener, and
      whatever store `w` the notes are then written to: every duplicate of the issue
      hears of it exactly when there is none, or staff resolved it and each of them
      points straight at it by then, from before or because it was merged anew. */
  lemma LateFanOutTellsIff(s: State, a: Action, id: IssueId, between: seq<Action>, w: World, told: seq<IssueId>)
    requires SessionsSeen(s) && Resolves(s, a, id)
    requires Tells(Announced(s, a), Run(Step(s, a), between).world.issues, id, told)
    ensures var s1 := Step(s, a);
            (EveryoneHears(s1.world.issues, id, w, told)
       <==> (forall d :: TransitiveDuplicate(s1.world.issues, d, id) ==>
               a.cmd.SetStatus? && OrElse(LastPointer(s1, between, d), Parent(s1.world.issues, d)) == Some(id)))
  {
    var s1 := Step(s, a);
    WhoResolves(s, a, id);
    StepKeepsSessionsSeen(s, a);
    hide SessionsSeen, Resolves, Announced, Step, Run, LastPointer, NewNotes, TransitiveDuplicate;
    forall d ensures
      (Note(d, None, ProblemResolved) in NewNotes(w, told)
       <==> a.cmd.SetStatus? && OrElse(LastPointer(s1, between, d), Parent(s1.world.issues, d)) == Some(id))
    {
      NotedAreTold(w, told, d);
      StretchPoints(s1, between, d);
    }
    hide Parent, Tells;
  }

  lemma {:induction false} DuplicatesHaveADirectOne(issues: Issues, d: IssueId, id: IssueId, n: nat)
    requires n > 0 && Hop(issues, d, n) == Some(id)
    ensures exists e :: DirectDuplicate(issues, e, id)
    decreases n
  {
    var next := Parent(issues, d).value;
    if n == 1 {
      assert Hop(issues, next, 0) == Some(next);
      assert DirectDuplicate(issues, d, id);
    } else {
      DuplicatesHaveADirectOne(issues, next, id, n - 1);
    }
  }

  /** When the listener looks at once: every duplicate, however indirect, hears of
      the resolution exactly when there is none, or staff resolved the issue and no
      direct duplicate has duplicates of its own. */
  lemma ResolutionTellsEveryoneIff(s: State, a: Action, id: IssueId, w: World, told: seq<IssueId>)
    requires SessionsSeen(s) && Forest(s.world.issues) && Resolves(s, a, id)
    requires Tells(Announced(s, a), Step(s, a).world.issues, id, told)
    ensures var issues := Step(s, a).world.issues;
            (EveryoneHears(issues, id, w, told)
       <==> (|| (forall d :: !DirectDuplicate(issues, d, id))
             || (a.cmd.SetStatus? && forall d, e :: DirectDuplicate(issues, e, id) ==> !DirectDuplicate(issues, d, e))))
  {
    var issues := Step(s, a).world.issues;
    assert Forest(issues) by {
      WhoResolves(s, a, id);
      SuccessfulSave(s, a);
      EditKeepsForest(s.world, id, a.cmd);
    }
    WhoResolves(s, a, id);
    hide SessionsSeen, Resolves, Announced, Step, Hop, SamePlatform;
    HearingIff(issues, id, w, told);
    AllAreDirectIff(issues, id);
    if d :| TransitiveDuplicate(issues, d, id) {
      var n: nat :| n > 0 && Hop(issues, d, n) == Some(id);
      DuplicatesHaveADirectOne(issues, d, id, n);
    } else if d :| DirectDuplicate(issues, d, id) {
      DirectIsTransitive(issues, d, id);
      assert false;
    }
  }

  lemma HearingIff(issues: Issues, id: IssueId, w: World, told: seq<IssueId>)
    ensures EveryoneHears(issues, id, w, told) <==> forall d :: TransitiveDuplicate(issues, d, id) ==> d in told
  {
    hide NewNotes, TransitiveDuplicate;
    forall d ensures Note(d, None, ProblemResolved) in NewNotes(w, told) <==> d in told {
      NotedAreTold(w, told, d);
    }
  }

  lemma DirectIsTransitive(issues: Issues, d: IssueId, id: IssueId)
    requires DirectDuplicate(issues, d, id)
    ensures TransitiveDuplicate(issues, d, id)
  {
    assert Hop(issues, id, 0) == Some(id);
    assert Hop(issues, d, 1) == Some(id);
  }

  // ---- A resolution nobody hears of ----------------------------------------------

  /** Two issues are filed, the first is merged into the second, and Jira reports the
      second as done: it is RESOLVED, the first is its duplicate, and nobody is told. */
  lemma JiraResolvesSilently(actor: Staff, now: Time)
    ensures var rs := [Reported(1, 9, now), Reported(2, 9, now), MergeInto(actor, 1, 2, 1, now),
                       JiraWebhook(2, "done", now)];
            var before, after := ServeAll(EMPTY_WORLD, rs[..3]), ServeAll(EMPTY_WORLD, rs);
            && 2 in before.issues && before.issues[2].status == New
            && 2 in after.issues && after.issues[2].status == Resolved
            && Flat(after.issues) && DirectDuplicate(after.issues, 1, 2)
            && forall d :: Note(d, None, ProblemResolved) !in after.notes
  {
    var r1, r2 := Reported(1, 9, now), Reported(2, 9, now);
    var r3, r4 := MergeInto(actor, 1, 2, 1, now), JiraWebhook(2, "done", now);
    var blank := NewIssue(9, now);
    assert [r1, r2, r3, r4][..3] == [r1, r2, r3] && [r1, r2, r3][..2] == [r1, r2];
    assert [r1, r2][..1] == [r1] && [r1][..0] == [];
    var w := ServeAll(EMPTY_WORLD, [r1, r2]);
    assert w.issues == map[1 := blank, 2 := blank] && w.notes == [] by {
      assert ServeAll(EMPTY_WORLD, [r1]).issues == map[1 := blank] && ServeAll(EMPTY_WORLD, [r1]).notes == [];
    }
    EveryRunKeeps([r1, r2]);
    hide Serve;
    assert ServeAll(EMPTY_WORLD, [r1, r2, r3]) == Serve(w, r3);
    assert ServeAll(EMPTY_WORLD, [r1, r2, r3, r4]) == Serve(Serve(w, r3), r4);
    hide ServeAll;
    MergedThenDone(w, actor, now);
  }

  lemma MergedThenDone(w: World, actor: Staff, now: Time)
    requires var blank := NewIssue(9, now); w.issues == map[1 := blank, 2 := blank] && w.notes == [] && Forest(w.issues)
    ensures var before := Serve(w, MergeInto(actor, 1, 2, 1, now));
            var after := Serve(before, JiraWebhook(2, "done", now));
            && 2 in before.issues && before.issues[2].status == New
            && 2 in after.issues && after.issues[2].status == Resolved
            && Flat(after.issues) && DirectDuplicate(after.issues, 1, 2)
            && forall d :: Note(d, None, ProblemResolved) !in after.notes
  {
    var w3 := Serve(w, MergeInto(actor, 1, 2, 1, now));
    FirstIsMerged(w, actor, now);
    hide Merge, Jira, Forest;
    DoneResolves(w3, 2, now);
    var w4 := Serve(w3, JiraWebhook(2, "done", now));
    assert Parent(w4.issues, 1) == Some(2) && forall x :: x != 1 ==> Parent(w4.issues, x).None?;
    hide Serve, Hop;
    forall x ensures Hop(w4.issues, x, 2).None? {
      TwoHops(w4.issues, x);
    }
  }

  lemma FirstIsMerged(w: World, actor: Staff, now: Time)
    requires var blank := NewIssue(9, now); w.issues == map[1 := blank, 2 := blank] && w.notes == [] && Forest(w.issues)
    ensures var after := Merge(w, actor, 1, 2, 1, now).0;
            && after.issues.Keys == {1, 2} && after.issues[1].duplicateOf == Some(2)
            && after.issues[2] == NewIssue(9, now)
            && after.notes == [Note(1, Some(actor.id), ClosedAsDuplicate), Note(2, Some(actor.id), MergedHere(1))]
  {
    MergeCarriesWatchers(w, actor, 1, 2, 1, now, 0, 0);
    hide Forest, Acyclic;
    EditedWorld(w, 1, CloseAsDuplicate(actor, 2, 1, now));
  }

  lemma DoneResolves(w: World, id: IssueId, now: Time)
    requires id in w.issues && w.issues[id].status == New
    ensures var w' := Jira(w, id, "done", now);
            && w'.issues.Keys == w.issues.Keys && w'.notes == w.notes && w'.issues[id].status == Resolved
            && forall x :: Parent(w'.issues, x) == Parent(w.issues, x)
  {
    assert CategoryStatus("done") == Some(Resolved);
    EditedWorld(w, id, JiraStatus(Resolved, now));
  }
}
