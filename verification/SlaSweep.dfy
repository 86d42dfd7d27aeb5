/** Sweeps that interleave with each other and with every other writer: an issue
    is reported breached at most once for every SLA cycle it is marked in. */
module SlaSweep {
  import opened Basics
  import opened Access
  import opened Lifecycle
  import Store = OptimisticStore
  import opened IssueOperations
  import opened SlaClock

  // ---- The sweep's condition is the dashboard's ----------------------------

  function WindowsOf(policies: PlatformId -> Policy, env: Env): Windows {
    (platform: PlatformId, p: Priority) => WindowHours(p, policies(platform), env) * MS_PER_HOUR
  }

  function InputOf(i: Issue, createdAt: Time, policies: PlatformId -> Policy): SlaInput {
    SlaInput(i.status, i.priority, createdAt, Some(i.slaStartedAt), policies(i.platform))
  }

  /** The sweep selects exactly the unmarked issues the service shows as breached. */
  lemma SweepSelectsTheBreached(i: Issue, createdAt: Time, policies: PlatformId -> Policy, env: Env, now: Time)
    ensures Escalatable(i, WindowsOf(policies, env), now)
       <==> i.slaBreachedAt.None? && ComputeSla(InputOf(i, createdAt, policies), env, now).1 == Breached
  {
  }

  // ---- Interleaved sweeps --------------------------------------------------

  /** One issue's SLA cycle: cycles are counted by the restarts of its clock. */
  type Cycle = (IssueId, nat)

  /** A sweep in progress: rows still to visit, and the mark it has made and not
      reported yet. */
  datatype Sweeper = Sweeper(todo: seq<IssueId>, pending: Option<Cycle>)

  /** A report sent: the issue, the cycle its mark was made in, and the cycle running
      when it was sent, which may be a later one. */
  datatype Report = Report(issue: IssueId, marked: nat, sent: nat)

  /** The store, the sweeps in progress, how often each clock was restarted, and
      the reports sent. */
  datatype State = State(world: World, sweepers: map<nat, Sweeper>, restarts: map<IssueId, nat>, emitted: seq<Report>)

  function MarkOf(r: Report): Cycle { (r.issue, r.marked) }

  /** The report of mark `c` when it is sent in state `s`. */
  function Sending(s: State, c: Cycle): Report { Report(c.0, c.1, RestartsOf(s, c.0)) }

  datatype Action =
    | Select(sweeper: nat, ids: seq<IssueId>)
    | Mark(sweeper: nat, now: Time)
    | Emit(sweeper: nat)
    | Other(op: Store.Op)

  function RestartsOf(s: State, id: IssueId): nat {
    if id in s.restarts then s.restarts[id] else 0
  }

  /** The operation restarts the issue's SLA clock: it moves it to REOPENED. */
  predicate Restarts(w: World, op: Store.Op, id: IssueId) {
    && op.Edited? && op.id == id && id in w.issues
    && EditNow(w, id, op.cmd).1.None?
    && w.issues[id].status != Reopened && EditNow(w, id, op.cmd).0.issues[id].status == Reopened
  }

  function MarkStep(s: State, k: nat, now: Time): State
    requires k in s.sweepers
  {
    var sw := s.sweepers[k];
    if sw.todo == [] || sw.pending.Some? then s
    else
      var id := sw.todo[0];
      if Affects(s.world, id, MarkBreached(now)) then
        s.(world := Write(s.world, id, MarkBreached(now)),
           sweepers := s.sweepers[k := Sweeper(sw.todo[1..], Some((id, RestartsOf(s, id))))])
      else s.(sweepers := s.sweepers[k := Sweeper(sw.todo[1..], None)])
  }

  function Step(s: State, a: Action): State {
    match a
    case Select(k, ids) => if k in s.sweepers then s else s.(sweepers := s.sweepers[k := Sweeper(ids, None)])
    case Mark(k, now) => if k in s.sweepers then MarkStep(s, k, now) else s
    case Emit(k) =>
      if k in s.sweepers && s.sweepers[k].pending.Some? then
        s.(sweepers := s.sweepers[k := s.sweepers[k].(pending := None)],
           emitted := s.emitted + [Sending(s, s.sweepers[k].pending.value)])
      else s
    case Other(op) =>
      s.(world := Store.Apply(s.world, op),
         restarts := if op.Edited? && Restarts(s.world, op, op.id)
                     then s.restarts[op.id := RestartsOf(s, op.id) + 1] else s.restarts)
  }

  function Run(s: State, actions: seq<Action>): State {
    if actions == [] then s else Step(Run(s, actions[..|actions| - 1]), actions[|actions| - 1])
  }

  /** The other writers: anything but another write of the breach mark. */
  predicate OtherWriter(a: Action) {
    a.Other? && a.op.Written? ==> !a.op.blind.MarkBreached?
  }

  /** A mark made in the current cycle is still on the row; earlier cycles are over. */
  predicate Spent(s: State, c: Cycle) {
    && c.0 in s.world.issues
    && c.1 <= RestartsOf(s, c.0)
    && (c.1 == RestartsOf(s, c.0) ==> s.world.issues[c.0].slaBreachedAt.Some?)
  }

  ghost predicate Inv(s: State) {
    && (forall j :: 0 <= j < |s.emitted| ==>
          Spent(s, MarkOf(s.emitted[j]))
              && s.emitted[j].marked <= s.emitted[j].sent <= RestartsOf(s, s.emitted[j].issue))
    && (forall j, k :: 0 <= j < k < |s.emitted| ==> MarkOf(s.emitted[j]) != MarkOf(s.emitted[k]))
    && (forall k <- s.sweepers :: s.sweepers[k].pending.Some? ==>
          Spent(s, s.sweepers[k].pending.value)
          && forall r <- s.emitted :: MarkOf(r) != s.sweepers[k].pending.value)
    && (forall j <- s.sweepers, k <- s.sweepers ::
          j != k && s.sweepers[j].pending.Some? ==> s.sweepers[j].pending != s.sweepers[k].pending)
  }

  lemma OpKeepsSpent(s: State, op: Store.Op, c: Cycle)
    requires Spent(s, c) && OtherWriter(Other(op))
    ensures Spent(Step(s, Other(op)), c)
  {
    if op.Edited? && op.id in s.world.issues {
      EditKeepsMark(s.world, op.id, op.cmd);
    }
  }

  /** An edit clears the breach mark only by restarting the clock. */
  lemma EditKeepsMark(w: World, id: IssueId, cmd: Cmd)
    requires id in w.issues
    ensures var w' := EditNow(w, id, cmd).0;
            && w'.issues.Keys == w.issues.Keys
            && (forall other <- w.issues :: other != id ==> w'.issues[other] == w.issues[other])
            && (!Restarts(w, Store.Edited(id, cmd), id) ==> w'.issues[id].slaBreachedAt == w.issues[id].slaBreachedAt)
  {
  }

  lemma MarkKeepsInv(s: State, k: nat, now: Time)
    requires Inv(s) && k in s.sweepers
    ensures Inv(MarkStep(s, k, now))
  {
    var s' := MarkStep(s, k, now);
    var sw := s.sweepers[k];
    if sw.todo != [] && sw.pending.None? && Affects(s.world, sw.todo[0], MarkBreached(now)) {
      var c := (sw.todo[0], RestartsOf(s, sw.todo[0]));
      assert !Spent(s, c);
      assert forall d: Cycle :: Spent(s, d) ==> Spent(s', d);
      assert Spent(s', c);
      assert s'.sweepers == s.sweepers[k := Sweeper(sw.todo[1..], Some(c))];
    } else {
      assert forall d: Cycle :: Spent(s, d) ==> Spent(s', d);
    }
  }

  lemma EmitKeepsInv(s: State, k: nat)
    requires Inv(s)
    ensures Inv(Step(s, Emit(k)))
  {
    var s' := Step(s, Emit(k));
    assert forall d: Cycle :: Spent(s, d) ==> Spent(s', d);
  }

  lemma StepKeepsInv(s: State, a: Action)
    requires Inv(s) && OtherWriter(a)
    ensures Inv(Step(s, a))
  {
    var s' := Step(s, a);
    match a
    case Select(k, ids) => assert forall d: Cycle :: Spent(s, d) ==> Spent(s', d);
    case Mark(k, now) =>
      if k in s.sweepers {
        MarkKeepsInv(s, k, now);
      }
    case Emit(k) => EmitKeepsInv(s, k);
    case Other(op) =>
      forall d: Cycle | Spent(s, d) ensures Spent(s', d) {
        OpKeepsSpent(s, op, d);
      }
  }

  const START := State(EMPTY_WORLD, map[], map[], [])

  lemma {:induction false} RunKeepsInv(actions: seq<Action>)
    requires forall k :: 0 <= k < |actions| ==> OtherWriter(actions[k])
    ensures Inv(Run(START, actions))
  {
    if actions != [] {
      RunKeepsInv(actions[..|actions| - 1]);
      StepKeepsInv(Run(START, actions[..|actions| - 1]), actions[|actions| - 1]);
    }
  }

  /** However many sweeps run, and however they interleave with status changes,
      merges, Jira and automation, no two reports of an issue follow marks made in
      the same SLA cycle. Of the cycles they are sent in that is not true. */
  lemma ReportedAtMostOncePerCycle(actions: seq<Action>, j: nat, k: nat)
    requires forall i :: 0 <= i < |actions| ==> OtherWriter(actions[i])
    requires var emitted := Run(START, actions).emitted; j < k < |emitted|
    ensures var emitted := Run(START, actions).emitted;
            emitted[j].issue == emitted[k].issue ==> emitted[j].marked != emitted[k].marked
  {
    RunKeepsInv(actions);
  }
}
