/** Interleaved writers on one store. Staff edits, Jira updates and merge closes
    load a row and save it later; automation, the SLA sweep and comments update
    rows without looking. Every interleaving is as good as an atomic run. */
module OptimisticStore {
  import opened Basics
  import opened Access
  import opened Lifecycle
  import opened LifecycleInvariants

  /** A writer between its load and its save. */
  datatype Session = Session(id: IssueId, loaded: Issue)

  datatype State = State(world: World, sessions: map<nat, Session>)

  datatype Action =
    | Creating(newId: IssueId, platform: PlatformId, now: Time)
    | Loading(sid: nat, id: IssueId)
    | Committing(sid: nat, cmd: Cmd)
    | Writing(id: IssueId, blind: Blind)

  function Step(s: State, a: Action): State {
    match a
    case Creating(id, platform, now) => s.(world := Create(s.world, id, platform, now))
    case Loading(sid, id) =>
      if id in s.world.issues then s.(sessions := s.sessions[sid := Session(id, s.world.issues[id])]) else s
    case Committing(sid, cmd) =>
      if sid !in s.sessions then s
      else State(Commit(s.world, s.sessions[sid].id, s.sessions[sid].loaded, cmd).0, s.sessions - {sid})
    case Writing(id, b) => s.(world := Write(s.world, id, b))
  }

  function Run(s: State, actions: seq<Action>): State
    decreases |actions|
  {
    if actions == [] then s else Run(Step(s, actions[0]), actions[1..])
  }

  /** The save that action `a` makes in state `s` goes through. */
  predicate Succeeds(s: State, a: Action) {
    && a.Committing? && a.sid in s.sessions
    && Commit(s.world, s.sessions[a.sid].id, s.sessions[a.sid].loaded, a.cmd).1.None?
  }

  // ---- Atomic operations ---------------------------------------------------

  datatype Op =
    | Born(id: IssueId, platform: PlatformId, now: Time)
    | Edited(id: IssueId, cmd: Cmd)
    | Written(id: IssueId, blind: Blind)

  function Apply(w: World, op: Op): World {
    match op
    case Born(id, platform, now) => Create(w, id, platform, now)
    case Edited(id, cmd) => EditNow(w, id, cmd).0
    case Written(id, b) => Write(w, id, b)
  }

  function ApplyAll(w: World, ops: seq<Op>): World
    decreases |ops|
  {
    if ops == [] then w else ApplyAll(Apply(w, ops[0]), ops[1..])
  }

  /** A successful save happens, as one edit, at the moment it is saved; loads
      and failed saves do not happen at all. */
  function Linearize(s: State, actions: seq<Action>): seq<Op>
    decreases |actions|
  {
    if actions == [] then []
    else
      var a := actions[0];
      var here :=
        match a
        case Creating(id, platform, now) => [Born(id, platform, now)]
        case Loading(_, _) => []
        case Committing(sid, cmd) => if Succeeds(s, a) then [Edited(s.sessions[sid].id, cmd)] else []
        case Writing(id, b) => [Written(id, b)];
      here + Linearize(Step(s, a), actions[1..])
  }

  // ---- Versions tell rows apart --------------------------------------------

  /** The row `r` is the present row of `id`, or an older one with a lower version. */
  predicate Seen(w: World, id: IssueId, r: Issue) {
    && id in w.issues
    && r.version <= w.issues[id].version
    && (r.version == w.issues[id].version ==> r == w.issues[id])
  }

  ghost predicate SessionsSeen(s: State) {
    forall sid <- s.sessions :: Seen(s.world, s.sessions[sid].id, s.sessions[sid].loaded)
  }

  lemma StepKeepsSeen(s: State, a: Action, id: IssueId, r: Issue)
    requires Seen(s.world, id, r)
    ensures Seen(Step(s, a).world, id, r)
  {
  }

  lemma StepKeepsSessionsSeen(s: State, a: Action)
    requires SessionsSeen(s)
    ensures SessionsSeen(Step(s, a))
  {
  }

  // ---- Saves are their own transition on the row as it stands ---------------

  /** A save that goes through finds the very row it loaded, and leaves that row
      edited, one version on, with every other row as it was. */
  lemma SuccessfulSave(s: State, a: Action)
    requires SessionsSeen(s) && Succeeds(s, a)
    ensures var id := s.sessions[a.sid].id;
            && id in s.world.issues
            && s.world.issues[id] == s.sessions[a.sid].loaded
            && Step(s, a).world == EditNow(s.world, id, a.cmd).0
            && EditNow(s.world, id, a.cmd).1.None?
            && Decide(s.world.issues[id], a.cmd).Ok?
            && var i := s.world.issues[id];
               Step(s, a).world.issues == s.world.issues[id := Decide(i, a.cmd).value.row.(version := i.version + 1)]
  {
  }

  /** A save that does not go through changes nothing. */
  lemma FailedSave(s: State, a: Action)
    requires a.Committing? && !Succeeds(s, a)
    ensures Step(s, a).world == s.world
  {
  }

  /** Interleaved runs refine atomic runs. */
  lemma {:induction false} InterleavingIsAtomic(s: State, actions: seq<Action>)
    requires SessionsSeen(s)
    ensures Run(s, actions).world == ApplyAll(s.world, Linearize(s, actions))
    decreases |actions|
  {
    if actions != [] {
      var a, rest := actions[0], actions[1..];
      var s' := Step(s, a);
      StepKeepsSessionsSeen(s, a);
      InterleavingIsAtomic(s', rest);
      var ops := Linearize(s, actions);
      var later := Linearize(s', rest);
      if a.Loading? || (a.Committing? && !Succeeds(s, a)) {
        assert ops == later;
      } else {
        if a.Committing? {
          SuccessfulSave(s, a);
        }
        assert ops[1..] == later;
      }
    }
  }

  // ---- Nobody overwrites what they have not seen ---------------------------

  lemma {:induction false} RunKeepsSeen(s: State, actions: seq<Action>, id: IssueId, r: Issue)
    requires Seen(s.world, id, r) && SessionsSeen(s)
    ensures Seen(Run(s, actions).world, id, r) && SessionsSeen(Run(s, actions))
    decreases |actions|
  {
    if actions != [] {
      StepKeepsSeen(s, actions[0], id, r);
      StepKeepsSessionsSeen(s, actions[0]);
      RunKeepsSeen(Step(s, actions[0]), actions[1..], id, r);
    }
  }

  /** The version a staff edit says its author was looking at. */
  function SeenVersion(cmd: Cmd): Option<nat> {
    match cmd
    case SetStatus(_, _, seen, _, _) => Some(seen)
    case SetPriority(_, seen) => Some(seen)
    case Assign(_, _, seen) => Some(seen)
    case CloseAsDuplicate(_, _, seen, _) => Some(seen)
    case JiraStatus(_, _) => None
  }

  /** An author looks at issue `id` in state `s`. However the writers interleave
      from there, if the author's edit then goes through, the row it replaces is
      the one the author was looking at. */
  lemma NoUnseenOverwrite(s: State, between: seq<Action>, a: Action, id: IssueId)
    requires SessionsSeen(s) && id in s.world.issues
    requires var later := Run(s, between);
             Succeeds(later, a) && later.sessions[a.sid].id == id
             && SeenVersion(a.cmd) == Some(s.world.issues[id].version)
    ensures Run(s, between).world.issues[id] == s.world.issues[id]
  {
    var later := Run(s, between);
    RunKeepsSeen(s, between, id, s.world.issues[id]);
    SuccessfulSave(later, a);
  }

  // ---- What every interleaving keeps ---------------------------------------

  predicate Categorised(a: Action) { a.Committing? ==> FromCategory(a.cmd) }

  lemma CommitKeepsRows(s: State, a: Action)
    requires SessionsSeen(s) && RowsCoherent(s.world) && LogSanctioned(s.world)
    requires a.Committing? && FromCategory(a.cmd)
    ensures RowsCoherent(Step(s, a).world) && LogSanctioned(Step(s, a).world)
  {
    if Succeeds(s, a) {
      var id := s.sessions[a.sid].id;
      SuccessfulSave(s, a);
      EditKeepsCoherent(s.world.issues[id], a.cmd);
      DecidedSanctioned(s.world.issues[id], a.cmd);
      var edit := Decide(s.world.issues[id], a.cmd).value;
      var saved := Save(s.world, id, s.world.issues[id].version, edit).value;
      assert Aftermath(saved, id, a.cmd).audit == saved.audit;
      assert Step(s, a).world.audit == s.world.audit + Entries(id, edit.changes);
    } else {
      FailedSave(s, a);
    }
  }

  /** Rows stay coherent and the log sanctioned, whatever the interleaving. */
  lemma {:induction false} RunKeepsRows(s: State, actions: seq<Action>)
    requires SessionsSeen(s) && RowsCoherent(s.world) && LogSanctioned(s.world)
    requires forall k :: 0 <= k < |actions| ==> Categorised(actions[k])
    ensures RowsCoherent(Run(s, actions).world) && LogSanctioned(Run(s, actions).world)
    decreases |actions|
  {
    if actions != [] {
      var a := actions[0];
      StepKeepsSessionsSeen(s, a);
      match a {
        case Committing(_, _) => CommitKeepsRows(s, a);
        case Writing(id, b) => WriteKeepsRows(s.world, id, b);
        case _ =>
      }
      RunKeepsRows(Step(s, a), actions[1..]);
    }
  }

  lemma StepKeepsExplained(s: State, a: Action)
    requires SessionsSeen(s) && RowsCoherent(s.world) && MarksExplained(s.world) && Categorised(a)
    ensures MarksExplained(Step(s, a).world)
  {
    hide MarksExplained;
    match a
    case Creating(id, platform, now) => CreateKeepsExplained(s.world, id, platform, now);
    case Loading(_, _) =>
    case Committing(sid, cmd) =>
      if Succeeds(s, a) {
        SuccessfulSave(s, a);
        EditKeepsExplained(s.world, s.sessions[sid].id, cmd);
      } else {
        FailedSave(s, a);
      }
    case Writing(id, b) => WriteKeepsExplained(s.world, id, b);
  }

  lemma {:induction false} RunKeepsExplained(s: State, actions: seq<Action>)
    requires SessionsSeen(s) && RowsCoherent(s.world) && LogSanctioned(s.world) && MarksExplained(s.world)
    requires forall k :: 0 <= k < |actions| ==> Categorised(actions[k])
    ensures MarksExplained(Run(s, actions).world)
    decreases |actions|
  {
    hide MarksExplained, RowsCoherent, LogSanctioned;
    if actions != [] {
      StepKeepsSessionsSeen(s, actions[0]);
      StepKeepsExplained(s, actions[0]);
      var one := [actions[0]];
      assert Run(s, one) == Step(s, actions[0]);
      RunKeepsRows(s, one);
      RunKeepsExplained(Step(s, actions[0]), actions[1..]);
    }
  }

  /** In every interleaving of all the writers, from an empty store: an issue is
      resolved and closed at once exactly when the last change of its status on
      record is Jira taking it from CLOSED to RESOLVED. */
  lemma ResolvedAndClosedIff(actions: seq<Action>, id: IssueId)
    requires forall k :: 0 <= k < |actions| ==> Categorised(actions[k])
    requires id in Run(State(EMPTY_WORLD, map[]), actions).world.issues
    ensures var w := Run(State(EMPTY_WORLD, map[]), actions).world;
            (ResolvedAndClosed(w.issues[id])
             <==> LastStatusChange(w.audit, id) == Some(StatusChange(Closed, Resolved, ByJira)))
  {
    RunKeepsExplained(State(EMPTY_WORLD, map[]), actions);
  }

  /** Every unguarded priority write of the run finds the priority its author has
      in memory. */
  ghost predicate WritesInStep(s: State, actions: seq<Action>)
    decreases |actions|
  {
    actions != [] ==>
      && (actions[0].Writing? ==> InStep(s.world, actions[0].id, actions[0].blind))
      && WritesInStep(Step(s, actions[0]), actions[1..])
  }

  lemma StepKeepsSound(s: State, a: Action)
    requires SessionsSeen(s) && Sound(s.world) && Categorised(a)
    requires a.Writing? ==> InStep(s.world, a.id, a.blind)
    ensures Sound(Step(s, a).world)
  {
    match a
    case Creating(id, platform, now) => CreateKeepsSound(s.world, id, platform, now);
    case Loading(_, _) =>
    case Committing(sid, cmd) =>
      if Succeeds(s, a) {
        SuccessfulSave(s, a);
        EditKeepsSound(s.world, s.sessions[sid].id, cmd);
      } else {
        FailedSave(s, a);
      }
    case Writing(id, b) =>
      WriteKeepsRows(s.world, id, b);
      WriteKeepsReplayIffInStep(s.world, id, b);
  }

  /** From an empty store, every interleaving whose priority writes are in step
      keeps the log replaying to where every issue stands. */
  lemma {:induction false} RunKeepsSound(s: State, actions: seq<Action>)
    requires SessionsSeen(s) && Sound(s.world)
    requires forall k :: 0 <= k < |actions| ==> Categorised(actions[k])
    requires WritesInStep(s, actions)
    ensures Sound(Run(s, actions).world)
    decreases |actions|
  {
    if actions != [] {
      StepKeepsSessionsSeen(s, actions[0]);
      StepKeepsSound(s, actions[0]);
      RunKeepsSound(Step(s, actions[0]), actions[1..]);
    }
  }

  /** Every step adds records at the end of the log, if it adds any. */
  lemma StepAppends(s: State, a: Action)
    ensures s.world.audit <= Step(s, a).world.audit
  {
  }

  lemma {:induction false} RunStaysBroken(s: State, actions: seq<Action>, id: IssueId)
    requires Replay(s.world.audit, id) == Broken
    ensures Replay(Run(s, actions).world.audit, id) == Broken
    decreases |actions|
  {
    if actions != [] {
      var before, after := s.world.audit, Step(s, actions[0]).world.audit;
      StepAppends(s, actions[0]);
      BrokenStays(before, after[|before|..], id);
      assert before + after[|before|..] == after;
      RunStaysBroken(Step(s, actions[0]), actions[1..], id);
    }
  }

  /** However the writers interleave, the log ends up replaying to where every issue
      stands exactly when every priority write of the run was in step: one that was
      not is never made good by anything recorded after it. */
  lemma {:induction false} LogReplaysIff(s: State, actions: seq<Action>)
    requires SessionsSeen(s) && Sound(s.world)
    requires forall k :: 0 <= k < |actions| ==> Categorised(actions[k])
    ensures LogReplays(Run(s, actions).world) <==> WritesInStep(s, actions)
    decreases |actions|
  {
    if actions != [] {
      var a := actions[0];
      if a.Writing? && !InStep(s.world, a.id, a.blind) {
        WriteOutOfStepBreaks(s.world, a.id, a.blind);
        RunStaysBroken(Step(s, a), actions[1..], a.id);
        BrokenDoesNotReplay(Run(s, actions).world, a.id);
      } else {
        StepKeepsSessionsSeen(s, a);
        StepKeepsSound(s, a);
        hide Sound, Step, SessionsSeen, LogReplays;
        LogReplaysIff(Step(s, a), actions[1..]);
      }
    }
  }

  lemma BrokenDoesNotReplay(w: World, id: IssueId)
    requires Replay(w.audit, id) == Broken
    ensures !LogReplays(w)
  {
  }

  /** An interleaving that breaks the log: an automation rule that
      loaded the issue before a staff edit of its priority. */
  lemma StaleAutomationBreaksTheLog(now: Time)
    ensures var s := State(EMPTY_WORLD, map[]);
            var actions := [Creating(7, 1, now), Loading(0, 7), Committing(0, SetPriority(High, 1)),
                            Writing(7, WritePriority(Medium, Critical))];
            !LogReplays(Run(s, actions).world)
  {
    var s := State(EMPTY_WORLD, map[]);
    var s1 := Step(s, Creating(7, 1, now));
    var s2 := Step(s1, Loading(0, 7));
    var s3 := Step(s2, Committing(0, SetPriority(High, 1)));
    var write := WritePriority(Medium, Critical);
    EmptyWorldSound();
    StepKeepsSound(s, Creating(7, 1, now));
    StepKeepsSessionsSeen(s, Creating(7, 1, now));
    StepKeepsSessionsSeen(s1, Loading(0, 7));
    StepKeepsSound(s2, Committing(0, SetPriority(High, 1)));
    assert s3.world.issues[7].priority == High;
    WriteKeepsReplayIffInStep(s3.world, 7, write);
    var actions := [Creating(7, 1, now), Loading(0, 7), Committing(0, SetPriority(High, 1)), Writing(7, write)];
    assert actions[1..][1..][1..][1..] == [];
    assert Run(s, actions) == Run(s1, actions[1..]);
    assert Run(s1, actions[1..]) == Run(s2, actions[1..][1..]);
    assert Run(s2, actions[1..][1..]) == Run(s3, actions[1..][1..][1..]);
    assert Run(s3, actions[1..][1..][1..]) == Step(s3, Writing(7, write));
  }
}
