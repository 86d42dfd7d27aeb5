/** The report of a breach is sent some time after the mark it follows. When the
    issue is reopened in between, the report falls into a cycle that may have one of
    its own: when that happens, and a run in which it does. */
module LateReports {
  import opened Basics
  import opened Access
  import opened Lifecycle
  import Store = OptimisticStore
  import opened IssueOperations
  import opened SlaSweep
  import opened LateMarks

  // ---- Reports sent in one running cycle ---------------------------------------

  /** The report was sent in a later cycle than its mark was made in. */
  predicate Late(r: Report) { r.marked < r.sent }

  /** Two reports of one issue, sent between the same two restarts of its clock. */
  predicate Share(r: Report, q: Report) { r.issue == q.issue && r.sent == q.sent }

  /** Of the reports sent in one running cycle at most one has its mark there. */
  lemma AtMostOneOnTime(actions: seq<Action>, j: nat, k: nat)
    requires forall i :: 0 <= i < |actions| ==> OtherWriter(actions[i])
    requires var emitted := Run(START, actions).emitted; j < k < |emitted| && Share(emitted[j], emitted[k])
    ensures var emitted := Run(START, actions).emitted; Late(emitted[j]) || Late(emitted[k])
  {
    RunKeepsInv(actions);
    hide Run;
    assert MarkOf(Run(START, actions).emitted[j]) != MarkOf(Run(START, actions).emitted[k]);
  }

  /** An issue is reported twice in one running cycle exactly when a late report
      shares its cycle with another. */
  lemma ReportedTwiceIff(actions: seq<Action>)
    requires forall i :: 0 <= i < |actions| ==> OtherWriter(actions[i])
    ensures var emitted := Run(START, actions).emitted;
            ((exists j, k :: 0 <= j < k < |emitted| && Share(emitted[j], emitted[k]))
       <==> (exists j, k :: && 0 <= j < |emitted| && 0 <= k < |emitted| && j != k
                            && Late(emitted[j]) && Share(emitted[j], emitted[k])))
  {
    var emitted := Run(START, actions).emitted;
    if j, k :| 0 <= j < k < |emitted| && Share(emitted[j], emitted[k]) {
      AtMostOneOnTime(actions, j, k);
      assert Share(emitted[k], emitted[j]);
    }
    if j, k :| 0 <= j < |emitted| && 0 <= k < |emitted| && j != k && Late(emitted[j]) && Share(emitted[j], emitted[k]) {
      assert Share(emitted[k], emitted[j]);
    }
  }

  // ---- When every report is on time --------------------------------------------

  /** The state before action `n`. */
  function At(actions: seq<Action>, n: nat): State
    requires n <= |actions|
  {
    Run(START, actions[..n])
  }

  /** The step makes sweeper `k` mark issue `id`. */
  predicate Marks(s: State, a: Action, k: nat, id: IssueId) {
    a.Mark? && a.sweeper == k && AboutToMark(s, k, id)
  }

  predicate RestartsClock(s: State, a: Action, id: IssueId) { a.Other? && Restarts(s.world, a.op, id) }

  /** Sweeper `k` marks issue `id` at `p` and reports that mark at `r`, and between
      the two, at `q`, the clock of the issue is restarted. */
  ghost predicate Overtaken(actions: seq<Action>, k: nat, id: IssueId, p: nat, q: nat, r: nat) {
    && p < q < r < |actions|
    && Marks(At(actions, p), actions[p], k, id)
    && RestartsClock(At(actions, q), actions[q], id)
    && actions[r] == Emit(k)
    && forall i :: p < i < r ==> actions[i] != Emit(k)
  }

  predicate SendsLate(s: State, a: Action) {
    && a.Emit? && a.sweeper in s.sweepers && s.sweepers[a.sweeper].pending.Some?
    && Late(Sending(s, s.sweepers[a.sweeper].pending.value))
  }

  lemma AtNext(actions: seq<Action>, n: nat)
    requires n < |actions|
    ensures At(actions, n + 1) == Step(At(actions, n), actions[n])
  {
    assert actions[..n + 1] == actions[..n] + [actions[n]];
    RunSnoc(START, actions[..n], actions[n]);
  }

  lemma PendingStays(s: State, a: Action, k: nat)
    requires k in s.sweepers && s.sweepers[k].pending.Some? && a != Emit(k)
    ensures k in Step(s, a).sweepers && Step(s, a).sweepers[k].pending == s.sweepers[k].pending
  {
  }

  lemma PendingComes(s: State, a: Action, k: nat)
    requires k in Step(s, a).sweepers && Step(s, a).sweepers[k].pending.Some?
    ensures var c := Step(s, a).sweepers[k].pending.value;
            || (k in s.sweepers && s.sweepers[k].pending == Some(c) && a != Emit(k))
            || (Marks(s, a, k, c.0) && c.1 == RestartsOf(s, c.0))
  {
    hide Store.Apply;
  }

  lemma MarkPends(s: State, a: Action, k: nat, id: IssueId)
    requires Marks(s, a, k, id)
    ensures k in Step(s, a).sweepers && Step(s, a).sweepers[k].pending == Some((id, RestartsOf(s, id)))
  {
  }

  lemma StepCounts(s: State, a: Action, id: IssueId)
    ensures RestartsOf(Step(s, a), id) == RestartsOf(s, id) + if RestartsClock(s, a, id) then 1 else 0
  {
    hide Store.Apply;
  }

  /** A mark stays unreported until its sweeper reports. */
  lemma {:induction false} Held(actions: seq<Action>, k: nat, id: IssueId, p: nat, n: nat)
    requires p < n <= |actions| && Marks(At(actions, p), actions[p], k, id)
    requires forall i :: p < i < n ==> actions[i] != Emit(k)
    ensures var s := At(actions, n);
            k in s.sweepers && s.sweepers[k].pending == Some((id, RestartsOf(At(actions, p), id)))
    decreases n
  {
    AtNext(actions, n - 1);
    if n == p + 1 {
      MarkPends(At(actions, p), actions[p], k, id);
    } else {
      Held(actions, k, id, p, n - 1);
      PendingStays(At(actions, n - 1), actions[n - 1], k);
    }
  }

  /** And every unreported mark was made at some step of the run. */
  lemma {:induction false} Origin(actions: seq<Action>, k: nat, n: nat) returns (p: nat)
    requires n <= |actions|
    requires k in At(actions, n).sweepers && At(actions, n).sweepers[k].pending.Some?
    ensures var c := At(actions, n).sweepers[k].pending.value;
            && p < n && Marks(At(actions, p), actions[p], k, c.0) && c.1 == RestartsOf(At(actions, p), c.0)
            && forall i :: p < i < n ==> actions[i] != Emit(k)
    decreases n
  {
    hide Step, Marks;
    if n == 0 {
      assert false;
    } else {
      AtNext(actions, n - 1);
      var s, a := At(actions, n - 1), actions[n - 1];
      PendingComes(s, a, k);
      hide At, RestartsOf;
      if k in s.sweepers && s.sweepers[k].pending == At(actions, n).sweepers[k].pending && a != Emit(k) {
        p := Origin(actions, k, n - 1);
      } else {
        p := n - 1;
      }
    }
  }

  /** The count of an issue's cycles never falls, and stays exactly while its clock is
      not restarted. */
  lemma {:induction false} CountMoves(actions: seq<Action>, id: IssueId, p: nat, n: nat)
    requires p <= n <= |actions|
    ensures RestartsOf(At(actions, n), id) >= RestartsOf(At(actions, p), id)
    ensures (RestartsOf(At(actions, n), id) == RestartsOf(At(actions, p), id)
       <==> (forall q :: p <= q < n ==> !RestartsClock(At(actions, q), actions[q], id)))
    decreases n
  {
    hide At, RestartsOf, RestartsClock, Step;
    if p < n {
      CountMoves(actions, id, p, n - 1);
      AtNext(actions, n - 1);
      StepCounts(At(actions, n - 1), actions[n - 1], id);
    }
  }

  ghost predicate AnyLate(emitted: seq<Report>) { exists r <- emitted :: Late(r) }

  ghost predicate SentLate(actions: seq<Action>, n: nat)
    requires n <= |actions|
  {
    exists i :: 0 <= i < n && SendsLate(At(actions, i), actions[i])
  }

  lemma StepReports(s: State, a: Action)
    ensures AnyLate(Step(s, a).emitted) <==> AnyLate(s.emitted) || SendsLate(s, a)
  {
  }

  lemma SentLateNext(actions: seq<Action>, n: nat)
    requires n < |actions|
    ensures SentLate(actions, n + 1) <==> SentLate(actions, n) || SendsLate(At(actions, n), actions[n])
  {
    hide At, SendsLate;
  }

  lemma {:induction false} LateOnesWereSentLate(actions: seq<Action>, n: nat)
    requires n <= |actions|
    ensures AnyLate(At(actions, n).emitted) <==> SentLate(actions, n)
    decreases n
  {
    if n == 0 {
      assert At(actions, 0) == START;
    } else {
      hide *;
      LateOnesWereSentLate(actions, n - 1);
      AtNext(actions, n - 1);
      StepReports(At(actions, n - 1), actions[n - 1]);
      SentLateNext(actions, n - 1);
    }
  }

  lemma SentLateMeansOvertaken(actions: seq<Action>, r: nat)
    requires r < |actions| && SendsLate(At(actions, r), actions[r])
    ensures exists k, id, p, q :: Overtaken(actions, k, id, p, q, r)
  {
    var k := actions[r].sweeper;
    var c := At(actions, r).sweepers[k].pending.value;
    var p := Origin(actions, k, r);
    CountMoves(actions, c.0, p, r);
    hide At, RestartsOf;
    var q :| p <= q < r && RestartsClock(At(actions, q), actions[q], c.0);
    assert q != p;
    assert Overtaken(actions, k, c.0, p, q, r);
  }

  lemma OvertakenMeansSentLate(actions: seq<Action>, k: nat, id: IssueId, p: nat, q: nat, r: nat)
    requires Overtaken(actions, k, id, p, q, r)
    ensures SendsLate(At(actions, r), actions[r])
  {
    Held(actions, k, id, p, r);
    CountMoves(actions, id, p, r);
    hide At, RestartsOf, RestartsClock, Marks;
  }

  /** In every interleaving, every report is sent in the cycle of its mark exactly
      when no issue is reopened between a mark of it and the report of that mark. */
  lemma OnTimeIffNotOvertaken(actions: seq<Action>)
    ensures (forall r <- Run(START, actions).emitted :: !Late(r))
       <==> !(exists k, id, p, q, r :: Overtaken(actions, k, id, p, q, r))
  {
    assert actions[..|actions|] == actions;
    LateOnesWereSentLate(actions, |actions|);
    assert At(actions, |actions|) == Run(START, actions);
    hide Run, At, SendsLate, Late, Overtaken;
    if i :| 0 <= i < |actions| && SendsLate(At(actions, i), actions[i]) {
      SentLateMeansOvertaken(actions, i);
    }
    if k, id, p, q, r :| Overtaken(actions, k, id, p, q, r) {
      OvertakenIsInRange(actions, k, id, p, q, r);
      OvertakenMeansSentLate(actions, k, id, p, q, r);
    }
  }

  lemma OvertakenIsInRange(actions: seq<Action>, k: nat, id: IssueId, p: nat, q: nat, r: nat)
    requires Overtaken(actions, k, id, p, q, r)
    ensures r < |actions|
  {
  }

  // ---- A run with two reports in one cycle ------------------------------------------

  /** Issue 1, filed on platform `p` at time zero, is all there is; its clock runs from
      `start` and has been restarted `restarts` times. */
  predicate OneIssue(s: State, p: PlatformId, status: Status, start: Time, marked: bool, restarts: nat) {
    && s.world.issues.Keys == {1}
    && var i := s.world.issues[1];
       && i.platform == p && i.status == status && i.priority == Medium && i.slaStartedAt == start
       && i.slaBreachedAt.Some? == marked && RestartsOf(s, 1) == restarts
  }

  function MarkedThenReopened(p: PlatformId, marked: Time, reopened: Time): seq<Action> {
    Filed(p) + [Mark(0, marked), Resolve(reopened), Reopen(reopened)]
  }

  lemma MarkAlone(s: State, p: PlatformId, now: Time)
    requires s.world.issues == map[1 := NewIssue(p, 0.0)] && s.sweepers == map[0 := Sweeper([1], None)]
    requires s.restarts == map[] && s.emitted == []
    ensures var t := Step(s, Mark(0, now));
            && t.world.issues == map[1 := NewIssue(p, 0.0).(slaBreachedAt := Some(now), version := 2)]
            && t.sweepers == map[0 := Sweeper([], Some((1, 0)))] && t.restarts == map[] && t.emitted == []
  {
    assert [1][1..] == [];
  }

  lemma MarkResolveReopen(s: State, p: PlatformId, marked: Time, reopened: Time)
    requires s.world.issues == map[1 := NewIssue(p, 0.0)] && s.sweepers == map[0 := Sweeper([1], None)]
    requires s.restarts == map[] && s.emitted == []
    ensures var t := Step(Step(Step(s, Mark(0, marked)), Resolve(reopened)), Reopen(reopened));
            && OneIssue(t, p, Reopened, reopened, false, 1)
            && t.sweepers == map[0 := Sweeper([], Some((1, 0)))] && t.emitted == []
  {
    MarkAlone(s, p, marked);
    var s1 := Step(s, Mark(0, marked));
    JiraEdits(s1, 1, Resolved, reopened);
    var s2 := Step(s1, Resolve(reopened));
    JiraEdits(s2, 1, New, reopened);
    hide Step;
  }

  lemma ReopenedWhilePending(p: PlatformId, windows: Windows, marked: Time, reopened: Time)
    requires windows(p, Medium) > 0.0
    ensures var s := Run(START, MarkedThenReopened(p, marked, reopened));
            && OneIssue(s, p, Reopened, reopened, false, 1)
            && s.sweepers == map[0 := Sweeper([], Some((1, 0)))] && s.emitted == []
  {
    hide Run, Step, Selected, Filed, OneIssue;
    FiledIsSelected(p, windows);
    RunThree(START, Filed(p), Mark(0, marked), Resolve(reopened), Reopen(reopened));
    MarkResolveReopen(Run(START, Filed(p)), p, marked, reopened);
  }

  lemma RunThree(s: State, actions: seq<Action>, a: Action, b: Action, c: Action)
    ensures Run(s, actions + [a, b, c]) == Step(Step(Step(Run(s, actions), a), b), c)
  {
    hide Run, Step;
    RunSnoc(s, actions, a);
    RunSnoc(s, actions + [a], b);
    RunSnoc(s, actions + [a] + [b], c);
    assert actions + [a, b, c] == actions + [a] + [b] + [c];
  }

  /** The report of the old mark, and another sweep that selects the issue. */
  function Reselected(p: PlatformId, marked: Time, reopened: Time): seq<Action> {
    MarkedThenReopened(p, marked, reopened) + [Emit(0), Select(1, [1])]
  }

  lemma EmitThenSelect(s: State, p: PlatformId, reopened: Time)
    requires OneIssue(s, p, Reopened, reopened, false, 1)
    requires s.sweepers == map[0 := Sweeper([], Some((1, 0)))] && s.emitted == []
    ensures var t := Step(Step(s, Emit(0)), Select(1, [1]));
            && OneIssue(t, p, Reopened, reopened, false, 1) && t.emitted == [Report(1, 0, 1)]
            && 1 in t.sweepers && t.sweepers[1] == Sweeper([1], None)
  {
  }

  lemma SelectedAgain(p: PlatformId, windows: Windows, marked: Time, reopened: Time, again: Time)
    requires windows(p, Medium) > 0.0 && reopened + windows(p, Medium) <= again
    ensures var s := Run(START, Reselected(p, marked, reopened));
            && OneIssue(s, p, Reopened, reopened, false, 1) && s.emitted == [Report(1, 0, 1)]
            && 1 in s.sweepers && s.sweepers[1] == Sweeper([1], None)
            && Selected(s.world, [1], windows, again)
  {
    var before := MarkedThenReopened(p, marked, reopened);
    ReopenedWhilePending(p, windows, marked, reopened);
    RunSnoc(START, before, Emit(0));
    RunSnoc(START, before + [Emit(0)], Select(1, [1]));
    assert Reselected(p, marked, reopened) == before + [Emit(0)] + [Select(1, [1])];
    hide Run, MarkedThenReopened, Reselected;
    EmitThenSelect(Run(START, before), p, reopened);
    hide Step;
  }

  /** A sweep marks the issue; Jira resolves and reopens it; only then is the mark
      reported. Past its new due time it is selected, marked and reported again. Both
      reports are sent in cycle 1, with no restart of the clock between them. */
  lemma TwoReportsInOneCycle(p: PlatformId, windows: Windows, marked: Time, reopened: Time, again: Time)
    requires 0.0 < windows(p, Medium) <= marked <= reopened && reopened + windows(p, Medium) <= again
    ensures Selected(Run(START, Filed(p)).world, [1], windows, marked)
    ensures Selected(Run(START, Reselected(p, marked, reopened)).world, [1], windows, again)
    ensures var t := Run(START, Reselected(p, marked, reopened) + [Mark(1, again), Emit(1)]);
            t.emitted == [Report(1, 0, 1), Report(1, 1, 1)] && RestartsOf(t, 1) == 1
  {
    FiledIsSelected(p, windows);
    SelectedAgain(p, windows, marked, reopened, again);
    var before := Reselected(p, marked, reopened);
    RunSnoc(START, before, Mark(1, again));
    RunSnoc(START, before + [Mark(1, again)], Emit(1));
    assert before + [Mark(1, again), Emit(1)] == before + [Mark(1, again)] + [Emit(1)];
    hide Run, Filed, Reselected;
    MarkThenEmit(Run(START, before), 1, 1, again);
    StepCounts(Run(START, before), Mark(1, again), 1);
    StepCounts(Step(Run(START, before), Mark(1, again)), Emit(1), 1);
    hide Step, Selected;
  }
}
