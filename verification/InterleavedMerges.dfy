/** Merges whose canonical was read some time before the duplicate is saved: when
    an interleaving of all the writers keeps the duplicate pointers a forest, and
    when it keeps them one hop deep. */
module InterleavedMerges {
  import opened Basics
  import opened Access
  import opened Lifecycle
  import opened OptimisticStore
  import opened Duplicates

  /** A merge close that goes through finds, at that moment, its canonical on the
      same platform and not on a chain that leads to the duplicate. */
  ghost predicate MergeInStep(s: State, a: Action) {
    Succeeds(s, a) && a.cmd.CloseAsDuplicate? ==>
      var id, canonical := s.sessions[a.sid].id, a.cmd.canonical;
      && id in s.world.issues && canonical in s.world.issues
      && s.world.issues[canonical].platform == s.world.issues[id].platform
      && !Reaches(s.world.issues, canonical, id)
  }

  lemma CloseKeepsForestIff(w: World, id: IssueId, cmd: Cmd)
    requires Forest(w.issues) && cmd.CloseAsDuplicate? && id in w.issues && EditNow(w, id, cmd).1.None?
    ensures Forest(EditNow(w, id, cmd).0.issues)
       <==> && cmd.canonical in w.issues
            && w.issues[cmd.canonical].platform == w.issues[id].platform
            && !Reaches(w.issues, cmd.canonical, id)
  {
    var after := EditNow(w, id, cmd).0.issues;
    var row := Decide(w.issues[id], cmd).value.row;
    var saved := Save(w, id, w.issues[id].version, Decide(w.issues[id], cmd).value).value;
    assert after == saved.issues;
    assert after == w.issues[id := row.(version := w.issues[id].version + 1)];
    assert after[id].duplicateOf == Some(cmd.canonical) && after[id].platform == w.issues[id].platform;
    if cmd.canonical in w.issues {
      LateMergeKeepsAcyclicIff(w, id, cmd.actor, cmd.canonical, cmd.seen, cmd.now);
      hide Acyclic, Reaches, EditNow;
      if w.issues[cmd.canonical].platform == w.issues[id].platform {
        assert SamePlatform(after);
      }
    }
  }

  /** One step of any writer keeps the forest exactly when it is no merge that
      comes too late. */
  lemma StepKeepsForestIff(s: State, a: Action)
    requires SessionsSeen(s) && Forest(s.world.issues)
    ensures Forest(Step(s, a).world.issues) <==> MergeInStep(s, a)
  {
    hide Forest;
    match a
    case Creating(id, platform, now) => CreateKeepsForest(s.world, id, platform, now);
    case Loading(_, _) =>
    case Writing(id, b) => WriteKeepsForest(s.world, id, b);
    case Committing(sid, cmd) =>
      if Succeeds(s, a) {
        SuccessfulSave(s, a);
        var id := s.sessions[sid].id;
        hide SessionsSeen, Succeeds, Step, EditNow;
        if cmd.CloseAsDuplicate? {
          CloseKeepsForestIff(s.world, id, cmd);
        } else {
          EditKeepsForest(s.world, id, cmd);
        }
      } else {
        FailedSave(s, a);
      }
  }

  ghost predicate MergesInStep(s: State, actions: seq<Action>)
    decreases |actions|
  {
    actions != [] ==> MergeInStep(s, actions[0]) && MergesInStep(Step(s, actions[0]), actions[1..])
  }

  ghost predicate ForestThroughout(s: State, actions: seq<Action>)
    decreases |actions|
  {
    Forest(s.world.issues) && (actions != [] ==> ForestThroughout(Step(s, actions[0]), actions[1..]))
  }

  /** Every state of an interleaved run is a forest exactly when no merge of the run
      comes too late. */
  lemma {:induction false} RunKeepsForestIff(s: State, actions: seq<Action>)
    requires SessionsSeen(s) && Forest(s.world.issues)
    ensures ForestThroughout(s, actions) <==> MergesInStep(s, actions)
    decreases |actions|
  {
    hide Forest, MergeInStep, SessionsSeen, Step;
    if actions != [] {
      var s' := Step(s, actions[0]);
      StepKeepsSessionsSeen(s, actions[0]);
      StepKeepsForestIff(s, actions[0]);
      if Forest(s'.world.issues) {
        RunKeepsForestIff(s', actions[1..]);
      } else {
        assert !ForestThroughout(s', actions[1..]);
      }
    }
  }

  // ---- One hop deep ----------------------------------------------------------

  /** A merge close that goes through joins, at that moment, an issue without
      duplicates to another that is not a duplicate itself. */
  ghost predicate JoinsLeafToRoot(s: State, a: Action) {
    Succeeds(s, a) && a.cmd.CloseAsDuplicate? ==>
      var id, canonical := s.sessions[a.sid].id, a.cmd.canonical;
      && canonical != id
      && Parent(s.world.issues, canonical).None?
      && forall d :: Parent(s.world.issues, d) != Some(id)
  }

  lemma ClosePoints(w: World, id: IssueId, cmd: Cmd)
    requires cmd.CloseAsDuplicate? && id in w.issues && EditNow(w, id, cmd).1.None?
    ensures Parent(w.issues, id).None?
    ensures forall x :: Parent(EditNow(w, id, cmd).0.issues, x) ==
              if x == id then Some(cmd.canonical) else Parent(w.issues, x)
  {
    var row := Decide(w.issues[id], cmd).value.row.(version := w.issues[id].version + 1);
    MergedRow(w, id, w.issues[id], cmd);
    assert EditNow(w, id, cmd).0.issues == w.issues[id := row];
    hide EditNow, Decide, Commit;
  }

  lemma CloseStaysFlatIff(w: World, id: IssueId, cmd: Cmd)
    requires Flat(w.issues) && cmd.CloseAsDuplicate? && id in w.issues && EditNow(w, id, cmd).1.None?
    ensures Flat(EditNow(w, id, cmd).0.issues)
       <==> && cmd.canonical != id
            && Parent(w.issues, cmd.canonical).None?
            && forall d :: Parent(w.issues, d) != Some(id)
  {
    var after, c := EditNow(w, id, cmd).0.issues, cmd.canonical;
    ClosePoints(w, id, cmd);
    hide EditNow, Hop;
    forall x
      ensures Hop(after, x, 2).None? <==>
              if x == id then c != id && Parent(w.issues, c).None? else Parent(w.issues, x) != Some(id)
    {
      TwoHops(after, x);
      TwoHops(w.issues, x);
    }
    hide Parent;
    assert Hop(after, id, 2).None? <==> c != id && Parent(w.issues, c).None?;
  }

  /** One step of any writer leaves flat pointers flat exactly when it is no merge of
      an issue that has duplicates, and none into an issue that has become one. */
  lemma StepStaysFlatIff(s: State, a: Action)
    requires SessionsSeen(s) && Flat(s.world.issues)
    ensures Flat(Step(s, a).world.issues) <==> JoinsLeafToRoot(s, a)
  {
    var before, after := s.world.issues, Step(s, a).world.issues;
    hide Flat;
    match a
    case Creating(id, platform, now) => DroppingKeepsFlat(before, after);
    case Loading(_, _) =>
    case Writing(id, b) => WriteKeepsPointers(s.world, id, b); DroppingKeepsFlat(before, after);
    case Committing(sid, cmd) =>
      if Succeeds(s, a) {
        SuccessfulSave(s, a);
        var id := s.sessions[sid].id;
        hide SessionsSeen, Succeeds, Step, EditNow;
        if cmd.CloseAsDuplicate? {
          CloseStaysFlatIff(s.world, id, cmd);
        } else {
          EditDropsPointers(s.world, id, cmd);
          DroppingKeepsFlat(before, after);
        }
      } else {
        FailedSave(s, a);
      }
  }

  ghost predicate JoinsOnlyLeavesToRoots(s: State, actions: seq<Action>)
    decreases |actions|
  {
    actions != [] ==> JoinsLeafToRoot(s, actions[0]) && JoinsOnlyLeavesToRoots(Step(s, actions[0]), actions[1..])
  }

  ghost predicate FlatThroughout(s: State, actions: seq<Action>)
    decreases |actions|
  {
    Flat(s.world.issues) && (actions != [] ==> FlatThroughout(Step(s, actions[0]), actions[1..]))
  }

  /** However the writers interleave, pointers are one hop deep throughout a run
      exactly when every merge joins, as it is saved, a leaf to a root. */
  lemma {:induction false} RunStaysFlatIff(s: State, actions: seq<Action>)
    requires SessionsSeen(s) && Flat(s.world.issues)
    ensures FlatThroughout(s, actions) <==> JoinsOnlyLeavesToRoots(s, actions)
    decreases |actions|
  {
    hide Flat, JoinsLeafToRoot, SessionsSeen, Step;
    if actions != [] {
      var s' := Step(s, actions[0]);
      StepKeepsSessionsSeen(s, actions[0]);
      StepStaysFlatIff(s, actions[0]);
      if Flat(s'.world.issues) {
        RunStaysFlatIff(s', actions[1..]);
      } else {
        assert !FlatThroughout(s', actions[1..]);
      }
    }
  }

  // ---- Two runs that go wrong --------------------------------------------------

  /** Two new issues, each loaded by somebody. */
  function BothLoaded(now: Time): State {
    var created := Step(Step(State(EMPTY_WORLD, map[]), Creating(1, 9, now)), Creating(2, 9, now));
    Step(Step(created, Loading(0, 1)), Loading(1, 2))
  }

  lemma BothAreLoaded(now: Time)
    ensures var s, blank := BothLoaded(now), NewIssue(9, now);
            && s.world.issues == map[1 := blank, 2 := blank]
            && s.sessions == map[0 := Session(1, blank), 1 := Session(2, blank)]
  {
  }

  /** Merging each into the other, from what was loaded, leaves them pointing at
      each other. */
  lemma MutualPointers(actor: Staff, now: Time)
    ensures var first, second := CloseAsDuplicate(actor, 2, 1, now), CloseAsDuplicate(actor, 1, 1, now);
            var issues := Step(Step(BothLoaded(now), Committing(0, first)), Committing(1, second)).world.issues;
            Parent(issues, 1) == Some(2) && Parent(issues, 2) == Some(1)
  {
    var s4, blank := BothLoaded(now), NewIssue(9, now);
    BothAreLoaded(now);
    hide BothLoaded;
    var first, second := CloseAsDuplicate(actor, 2, 1, now), CloseAsDuplicate(actor, 1, 1, now);
    assert Decide(blank, first).Ok? && Decide(blank, second).Ok?;
    MergedRow(s4.world, 1, blank, first);
    hide Decide, NewIssue, Commit;
    var s5 := Step(s4, Committing(0, first));
    MergedRow(s5.world, 2, blank, second);
  }

  /** Two issues are loaded to be merged into each other, which is where the merge
      service sends either at that moment, before either merge is saved. */
  lemma MutualMergesGoWrong(actor: Staff, now: Time)
    ensures var s := State(EMPTY_WORLD, map[]);
            var actions := [Creating(1, 9, now), Creating(2, 9, now), Loading(0, 1), Loading(1, 2),
                            Committing(0, CloseAsDuplicate(actor, 2, 1, now)),
                        Committing(1, CloseAsDuplicate(actor, 1, 1, now))];
            && SessionsSeen(s) && Forest(s.world.issues) && !Forest(Run(s, actions).world.issues)
            && Run(s, actions[..4]) == BothLoaded(now)
            && MergeTarget(BothLoaded(now).world, 1, 2, 1) == Ok(2)
            && MergeTarget(BothLoaded(now).world, 2, 1, 1) == Ok(1)
  {
    var s := State(EMPTY_WORLD, map[]);
    var actions := [Creating(1, 9, now), Creating(2, 9, now), Loading(0, 1), Loading(1, 2),
                    Committing(0, CloseAsDuplicate(actor, 2, 1, now)),
                    Committing(1, CloseAsDuplicate(actor, 1, 1, now))];
    assert SessionsSeen(s) && Forest(s.world.issues);
    FourSteps(s, actions);
    TwoSteps(BothLoaded(now), actions[4], actions[5]);
    assert actions[4..] == [actions[4], actions[5]];
    MutualPointers(actor, now);
    BothAreLoaded(now);
    hide Step, Run;
    var issues := Run(s, actions).world.issues;
    TwoHops(issues, 1);
    if Forest(issues) {
      AcyclicMeansNoCycle(issues, 1, 2);
    }
  }

  lemma MergedRow(w: World, id: IssueId, loaded: Issue, cmd: Cmd)
    requires id in w.issues && w.issues[id] == loaded && cmd.CloseAsDuplicate? && Decide(loaded, cmd).Ok?
    ensures var row := Decide(loaded, cmd).value.row.(version := loaded.version + 1);
            Commit(w, id, loaded, cmd).0.issues == w.issues[id := row] && row.duplicateOf == Some(cmd.canonical)
  {
  }

  lemma OneStep(s: State, a: seq<Action>, k: nat)
    requires k < |a|
    ensures Run(s, a[k..]) == Run(Step(s, a[k]), a[k + 1..])
  {
    assert a[k..][0] == a[k] && a[k..][1..] == a[k + 1..];
  }

  lemma FourSteps(s: State, a: seq<Action>)
    requires |a| >= 4
    ensures Run(s, a[..4]) == Step(Step(Step(Step(s, a[0]), a[1]), a[2]), a[3])
    ensures Run(s, a) == Run(Run(s, a[..4]), a[4..])
  {
    var front := a[..4];
    OneStep(s, a, 0); OneStep(s, front, 0);
    var s1 := Step(s, a[0]);
    OneStep(s1, a, 1); OneStep(s1, front, 1);
    var s2 := Step(s1, a[1]);
    OneStep(s2, a, 2); OneStep(s2, front, 2);
    var s3 := Step(s2, a[2]);
    OneStep(s3, a, 3); OneStep(s3, front, 3);
    hide Step;
    assert a[0..] == a && front[0..] == front && front[4..] == [];
  }

  lemma TwoSteps(s: State, a: Action, b: Action)
    ensures Run(s, [a, b]) == Step(Step(s, a), b)
  {
    OneStep(s, [a, b], 0);
    OneStep(Step(s, a), [a, b], 1);
    hide Step;
    assert [a, b][0..] == [a, b] && [a, b][2..] == [];
  }

  // The second run: the canonical becomes a duplicate before the merge into it is saved.

  /** Three new issues, of which the first two are loaded by somebody. */
  function Loads(now: Time): seq<Action> {
    [Creating(1, 9, now), Creating(2, 9, now), Creating(3, 9, now), Loading(0, 1), Loading(1, 2)]
  }

  lemma TheyAreLoaded(now: Time)
    ensures var s, blank := Run(State(EMPTY_WORLD, map[]), Loads(now)), NewIssue(9, now);
            && s.world.issues == map[1 := blank, 2 := blank, 3 := blank]
            && s.sessions == map[0 := Session(1, blank), 1 := Session(2, blank)]
  {
    var s, a := State(EMPTY_WORLD, map[]), Loads(now);
    FourSteps(s, a);
    OneStep(Run(s, a[..4]), a, 4);
    assert a[5..] == [];
  }

  /** The second issue goes into the third, then the first into the second. */
  function Merges(actor: Staff, now: Time): seq<Action> {
    [Committing(1, CloseAsDuplicate(actor, 3, 1, now)), Committing(0, CloseAsDuplicate(actor, 2, 1, now))]
  }

  lemma MergesChain(s: State, actor: Staff, now: Time)
    requires var blank := NewIssue(9, now);
             && s.world.issues == map[1 := blank, 2 := blank, 3 := blank]
             && s.sessions == map[0 := Session(1, blank), 1 := Session(2, blank)]
    ensures var issues := Run(s, Merges(actor, now)).world.issues;
            Parent(issues, 1) == Some(2) && Parent(issues, 2) == Some(3)
  {
    var blank := NewIssue(9, now);
    var first, second := CloseAsDuplicate(actor, 2, 1, now), CloseAsDuplicate(actor, 3, 1, now);
    assert Decide(blank, first).Ok? && Decide(blank, second).Ok?;
    TwoSteps(s, Committing(1, second), Committing(0, first));
    MergedRow(s.world, 2, blank, second);
    hide Decide, NewIssue, Commit, Run;
    var s1 := Step(s, Committing(1, second));
    MergedRow(s1.world, 1, blank, first);
  }

  lemma RootsReachThemselves(issues: Issues, c: IssueId, d: IssueId)
    requires Parent(issues, c).None? && c != d
    ensures !Reaches(issues, c, d)
  {
  }

  lemma ThroughOneHop(issues: Issues, c: IssueId, d: IssueId, root: IssueId)
    requires c != d && Parent(issues, c) == Some(root) && !Reaches(issues, root, d)
    ensures !Reaches(issues, c, d)
  {
    forall n: nat ensures Hop(issues, c, n) != Some(d) {
      if n > 0 {
        assert Hop(issues, c, n) == Hop(issues, root, n - 1);
      }
    }
  }

  lemma LateMergeInStep(s: State, actor: Staff, now: Time)
    requires var blank := NewIssue(9, now);
             && s.world.issues == map[1 := blank, 2 := blank, 3 := blank]
             && s.sessions == map[0 := Session(1, blank), 1 := Session(2, blank)]
    ensures MergesInStep(s, Merges(actor, now))
  {
    var blank := NewIssue(9, now);
    var first, second := CloseAsDuplicate(actor, 2, 1, now), CloseAsDuplicate(actor, 3, 1, now);
    assert Decide(blank, first).Ok? && Decide(blank, second).Ok?;
    assert blank.platform == 9 && blank.duplicateOf.None?;
    RootsReachThemselves(s.world.issues, 3, 2);
    MergedRow(s.world, 2, blank, second);
    var row := Decide(blank, second).value.row.(version := blank.version + 1);
    assert row.platform == 9;
    hide Decide, NewIssue, Commit, Run, Reaches, Hop;
    var s1 := Step(s, Committing(1, second));
    assert s1.world.issues == map[1 := blank, 2 := row, 3 := blank];
    RootsReachThemselves(s1.world.issues, 3, 1);
    ThroughOneHop(s1.world.issues, 2, 1, 3);
    assert MergeInStep(s, Committing(1, second)) && MergeInStep(s1, Committing(0, first));
    assert Merges(actor, now)[1..] == [Committing(0, first)];
    assert [Committing(0, first)][1..] == [];
    hide MergeInStep, Step;
    assert MergesInStep(Step(s1, Committing(0, first)), []);
    assert MergesInStep(s1, [Committing(0, first)]);
  }

  /** Nobody is a duplicate, so neither issue merged has duplicates when it is saved,
      both merges go where the merge service sends them when they are loaded, and
      still the first issue ends up two hops from the third. */
  lemma LateMergeMakesTwoHops(actor: Staff, now: Time)
    ensures var s := Run(State(EMPTY_WORLD, map[]), Loads(now));
            && MergeTarget(s.world, 1, 2, 1) == Ok(2) && MergeTarget(s.world, 2, 3, 1) == Ok(3)
            && (forall d :: Parent(s.world.issues, d).None?)
            && MergesInStep(s, Merges(actor, now))
            && Hop(Run(s, Merges(actor, now)).world.issues, 1, 2) == Some(3)
  {
    TheyAreLoaded(now);
    var s := Run(State(EMPTY_WORLD, map[]), Loads(now));
    MergesChain(s, actor, now);
    TwoHops(Run(s, Merges(actor, now)).world.issues, 1);
    LateMergeInStep(s, actor, now);
  }
}
