/** The hand-off cannot get stuck: from wherever a run has got to, some way of going
    on brings everything to rest, so that what holds at rest is not an empty promise. */
module HandoffProgress {
  import opened Basics
  import opened Handoff
  import opened HandoffClaims
  import opened HandoffRuns

  // ---- Adding up what is left to do -------------------------------------------

  ghost function Sum<T>(m: map<nat, T>, work: T -> nat): nat
    decreases |m|
  {
    if m == map[] then 0
    else
      var k :| k in m;
      work(m[k]) + Sum(m - {k}, work)
  }

  lemma {:induction false} SumSplit<T>(m: map<nat, T>, work: T -> nat, k: nat)
    requires k in m
    ensures Sum(m, work) == work(m[k]) + Sum(m - {k}, work)
    decreases |m|
  {
    var j :| j in m && Sum(m, work) == work(m[j]) + Sum(m - {j}, work);
    if j != k {
      SumSplit(m - {j}, work, k);
      SumSplit(m - {k}, work, j);
      assert m - {j} - {k} == m - {k} - {j};
    }
  }

  lemma SumPut<T>(m: map<nat, T>, work: T -> nat, k: nat, v: T)
    ensures Sum(m[k := v], work) == work(v) + Sum(m - {k}, work)
  {
    SumSplit(m[k := v], work, k);
    assert m[k := v] - {k} == m - {k};
  }

  /** Steps a handler may still take, when there are `n` files. */
  function WorkerWork(w: Worker, n: nat): nat {
    match w
    case Handling => 3 + 2 * n
    case Keyed => 2 + 2 * n
    case Syncing(todo) => 1 + 2 * |todo|
    case Pushing(_, rest) => 2 + 2 * |rest|
  }

  function PassWork(p: ScanPass, n: nat): nat { |p.todo| + 5 + 2 * n }

  function WorkerWeight(n: nat): Worker -> nat { (w: Worker) => WorkerWork(w, n) }

  function PassWeight(n: nat): ScanPass -> nat { (p: ScanPass) => PassWork(p, n) }

  function CreationWork(c: Creation, n: nat): nat { if c == Underway then 3 + 2 * n else 0 }

  function AnnouncedWork(announcements: nat, n: nat): nat { announcements * (4 + 2 * n) }

  lemma OneAnnouncement(announcements: nat, n: nat)
    ensures AnnouncedWork(announcements + 1, n) == AnnouncedWork(announcements, n) + 4 + 2 * n
  {
    var k := 4 + 2 * n;
    assert (announcements + 1) * k == announcements * k + k;
  }

  ghost function Work(s: State): nat {
    var n := |s.files|;
    CreationWork(s.creation, n) + AnnouncedWork(s.announcements, n)
    + Sum(s.passes, PassWeight(n)) + Sum(s.workers, WorkerWeight(n))
  }

  /** A handler comes or moves on. */
  lemma WorkerPut(s: State, t: State, w: nat, worker: Worker)
    requires t.workers == s.workers[w := worker] && t.passes == s.passes && |t.files| == |s.files|
    requires var n := |s.files|;
             CreationWork(t.creation, n) + AnnouncedWork(t.announcements, n) + WorkerWork(worker, n)
             < CreationWork(s.creation, n) + AnnouncedWork(s.announcements, n)
               + if w in s.workers then WorkerWork(s.workers[w], n) else 0
    ensures Work(t) < Work(s)
  {
    var n := |s.files|;
    hide Sum, WorkerWork, AnnouncedWork, CreationWork;
    SumPut(s.workers, WorkerWeight(n), w, worker);
    if w in s.workers {
      SumSplit(s.workers, WorkerWeight(n), w);
    } else {
      assert s.workers - {w} == s.workers;
    }
  }

  lemma WorkerLeaves(s: State, t: State, w: nat)
    requires w in s.workers && t == Without(s, w)
    ensures Work(t) < Work(s)
  {
    var n := |s.files|;
    hide Sum;
    SumSplit(s.workers, WorkerWeight(n), w);
    assert WorkerWeight(n)(s.workers[w]) > 0;
  }

  /** A pass has scanned a file, or is over and may have announced it. */
  lemma PassMoves(s: State, t: State, p: nat, more: seq<ScanPass>)
    requires p in s.passes && |more| <= 1 && t.creation == s.creation && t.workers == s.workers
             && |t.files| == |s.files|
    requires t.passes == if more == [] then s.passes - {p} else s.passes[p := more[0]]
    requires if more == [] then s.announcements <= t.announcements <= s.announcements + 1
             else t.announcements == s.announcements && |more[0].todo| < |s.passes[p].todo|
    ensures Work(t) < Work(s)
  {
    var n := |s.files|;
    hide Sum, AnnouncedWork, CreationWork;
    SumSplit(s.passes, PassWeight(n), p);
    assert PassWeight(n)(s.passes[p]) == PassWork(s.passes[p], n);
    if more == [] {
      OneAnnouncement(s.announcements, n);
    } else {
      SumPut(s.passes, PassWeight(n), p, more[0]);
      assert PassWeight(n)(more[0]) == PassWork(more[0], n);
    }
  }

  // ---- What can be done next -----------------------------------------------------

  lemma {:induction false} FreshIn(ids: set<nat>) returns (w: nat)
    ensures forall v <- ids :: v < w
    decreases |ids|
  {
    if ids == {} {
      w := 0;
    } else {
      var v :| v in ids;
      var above := FreshIn(ids - {v});
      w := if v < above then above else v + 1;
      forall u | u in ids ensures u < w {
        assert u != v ==> u in ids - {v};
      }
    }
  }

  lemma {:induction false} Enumerated(ids: set<FileId>) returns (order: seq<FileId>)
    ensures Distinct(order) && |order| == |ids| && forall f :: f in order <==> f in ids
    decreases |ids|
  {
    if ids == {} {
      order := [];
    } else {
      var f :| f in ids;
      var rest := Enumerated(ids - {f});
      order := [f] + rest;
    }
  }

  /** One step that is enabled, is no failure, and leaves less to do. */
  ghost predicate Progress(s: State, a: Action) {
    && Enabled(s, a) && !a.CreateFails? && !a.PushFails? && Work(Step(s, a)) < Work(s)
  }

  lemma CreationProgress(s: State) returns (a: Action)
    requires s.creation == Underway
    ensures Progress(s, a)
  {
    var w := FreshIn(s.workers.Keys);
    assert w !in s.workers;
    a := CreateSucceeds(w);
    WorkerPut(s, Step(s, a), w, Keyed);
    hide Work;
  }

  lemma DeliveryProgress(s: State) returns (a: Action)
    requires s.announcements > 0
    ensures Progress(s, a)
  {
    var w := FreshIn(s.workers.Keys);
    assert w !in s.workers;
    a := Deliver(w);
    OneAnnouncement(s.announcements - 1, |s.files|);
    hide AnnouncedWork;
    WorkerPut(s, Step(s, a), w, Handling);
    hide Work;
  }

  lemma FinishProgress(s: State, p: nat)
    requires p in s.passes && s.passes[p].todo == []
    ensures Progress(s, FinishPass(p))
  {
    hide Work;
    PassMoves(s, Step(s, FinishPass(p)), p, []);
  }

  lemma ScanProgress(s: State, p: nat)
    requires Inv(s) && p in s.passes && s.passes[p].todo != []
    ensures Progress(s, ScanNext(p, Clean))
  {
    var a, pass := ScanNext(p, Clean), s.passes[p];
    ScannedFile(s, p);
    hide Inv, Work;
    var t := Step(s, a);
    var rest := ScanPass(pass.todo[1..], pass.retry, true);
    assert t.files.Keys == s.files.Keys && t.passes == s.passes[p := rest] && Enabled(s, a);
    assert t.workers == s.workers && t.creation == s.creation && t.announcements == s.announcements;
    hide Step, Possible;
    SameSize(s.files, t.files);
    PassMoves(s, t, p, [rest]);
  }

  lemma SameSize(a: map<FileId, File>, b: map<FileId, File>)
    requires a.Keys == b.Keys
    ensures |a| == |b|
  {
    assert |a| == |a.Keys| && |b| == |b.Keys|;
  }

  lemma ListProgress(s: State, w: nat) returns (a: Action)
    requires w in s.workers && s.workers[w].Keyed?
    ensures Progress(s, a)
  {
    var eligible := set f | f in s.files && Eligible(s, f);
    var order := Enumerated(eligible);
    a := List(w, order);
    assert eligible <= s.files.Keys && |s.files.Keys| == |s.files|;
    Smaller(eligible, s.files.Keys);
    assert Enabled(s, a);
    hide Possible, Work, Distinct;
    WorkerPut(s, Step(s, a), w, Syncing(order));
  }

  lemma {:induction false} Smaller(a: set<FileId>, b: set<FileId>)
    requires a <= b
    ensures |a| <= |b|
    decreases |a|
  {
    if a != {} {
      var f :| f in a;
      Smaller(a - {f}, b - {f});
    }
  }

  lemma ClaimProgress(s: State, w: nat)
    requires Inv(s) && w in s.workers && s.workers[w].Syncing? && s.workers[w].todo != []
    ensures Progress(s, Claim(w))
  {
    var todo := s.workers[w].todo;
    assert MayWork(s.files, s.workers[w]);
    hide Inv;
    ClaimedMayWork(s.files, todo);
    hide MayWork, Work;
    var t := Step(s, Claim(w));
    assert t.files.Keys == s.files.Keys && |todo[1..]| == |todo| - 1;
    SameSize(s.files, t.files);
    WorkerPut(s, t, w, if s.files[todo[0]].synced then Syncing(todo[1..]) else Pushing(todo[0], todo[1..]));
  }

  lemma PushProgress(s: State, w: nat)
    requires Inv(s) && w in s.workers && s.workers[w].Pushing?
    ensures Progress(s, PushSucceeds(w))
  {
    assert MayWork(s.files, s.workers[w]) && s.pushes.Keys == s.files.Keys;
    hide Inv, Work;
    assert Enabled(s, PushSucceeds(w));
    WorkerPut(s, Step(s, PushSucceeds(w)), w, Syncing(s.workers[w].rest));
  }

  lemma WorkerProgress(s: State, w: nat) returns (a: Action)
    requires Inv(s) && w in s.workers && !s.workers[w].Keyed?
    ensures Progress(s, a)
  {
    hide Inv, Work;
    var worker := s.workers[w];
    if worker.Syncing? && worker.todo != [] {
      a := Claim(w);
      ClaimProgress(s, w);
      hide Progress;
    } else if worker.Pushing? {
      a := PushSucceeds(w);
      PushProgress(s, w);
      hide Progress;
    } else {
      a := if worker.Handling? then ReadKey(w) else Finish(w);
      if worker.Handling? && s.keyWritten {
        WorkerPut(s, Step(s, a), w, Keyed);
      } else {
        WorkerLeaves(s, Step(s, a), w);
      }
    }
  }

  /** Unless everything is at rest, there is a next step. */
  lemma SomethingToDo(s: State) returns (a: Action)
    requires Inv(s) && !Quiet(s)
    ensures Progress(s, a)
  {
    hide Inv, Progress;
    if s.creation == Underway {
      a := CreationProgress(s);
    } else if s.announcements > 0 {
      a := DeliveryProgress(s);
    } else if s.passes != map[] {
      var p :| p in s.passes;
      if s.passes[p].todo == [] {
        a := FinishPass(p);
        FinishProgress(s, p);
      } else {
        a := ScanNext(p, Clean);
        ScanProgress(s, p);
      }
    } else {
      var w :| w in s.workers;
      if s.workers[w].Keyed? {
        a := ListProgress(s, w);
      } else {
        a := WorkerProgress(s, w);
      }
    }
  }

  function Last(run: seq<State>): State
    requires run != []
  {
    run[|run| - 1]
  }

  /** `t` is where `s` gets to without a further failure. */
  predicate WithoutFailure(s: State, t: State) {
    t.failed == s.failed && (s.creation != Failed ==> t.creation != Failed)
  }

  lemma NotUnderway(s: State)
    requires Quiet(s)
    ensures s.creation == Done || s.creation == Failed
  {
  }

  lemma StillAPrefix(a: seq<State>, b: seq<State>, c: seq<State>)
    requires a <= b <= c
    ensures a <= c
  {
  }

  lemma OneMoreState(ids: set<FileId>, run: seq<State>, a: Action)
    requires IsRun(ids, run) && Enabled(Last(run), a)
    ensures IsRun(ids, run + [Step(Last(run), a)])
  {
    hide Step, Possible, Exclusive;
    var next := run + [Step(Last(run), a)];
    forall k | 0 <= k < |next| - 1 ensures Next(next[k], next[k + 1]) {
      if k < |run| - 1 {
        assert Next(run[k], run[k + 1]);
      }
    }
  }

  lemma GoesOn(ids: set<FileId>, run: seq<State>) returns (next: seq<State>)
    requires IsRun(ids, run) && !Quiet(Last(run))
    ensures IsRun(ids, next) && run <= next && Work(Last(next)) < Work(Last(run))
            && WithoutFailure(Last(run), Last(next))
  {
    var s := Last(run);
    RunKeepsInv(ids, run);
    hide Work, Inv, Quiet;
    var a := SomethingToDo(s);
    NoFailure(s, a);
    OneMoreState(ids, run, a);
    hide IsRun, Step, Possible, Exclusive;
    next := run + [Step(s, a)];
    assert Last(next) == Step(s, a);
  }

  /** Every run can be continued until everything is at rest, without a further
      failure; if the Jira issue had not failed to be created, it then exists. */
  lemma {:induction false} CanComeToRest(ids: set<FileId>, run: seq<State>) returns (longer: seq<State>)
    requires IsRun(ids, run)
    ensures IsRun(ids, longer) && run <= longer && Quiet(Last(longer)) && WithoutFailure(Last(run), Last(longer))
    ensures Last(run).creation != Failed ==> Last(longer).creation == Done
    decreases Work(Last(run))
  {
    assert run != [];
    hide IsRun, Work, Quiet, Last;
    if Quiet(Last(run)) {
      NotUnderway(Last(run));
      longer := run;
    } else {
      var next := GoesOn(ids, run);
      longer := CanComeToRest(ids, next);
      StillAPrefix(run, next, longer);
    }
  }

  lemma NoFailure(s: State, a: Action)
    requires Enabled(s, a) && !a.CreateFails? && !a.PushFails?
    ensures Step(s, a).failed == s.failed && (s.creation != Failed ==> Step(s, a).creation != Failed)
  {
  }

  /** So whatever happened, short of failures, some continuation pushes every file
      that is then cleared exactly once. */
  lemma EveryRunCanDeliver(ids: set<FileId>, run: seq<State>) returns (longer: seq<State>)
    requires IsRun(ids, run) && Last(run).failed == {} && Last(run).creation != Failed
    ensures IsRun(ids, longer) && run <= longer
    ensures var s := Last(longer);
            forall f <- ids ::
              f in s.files && f in s.pushes && s.pushes[f] == if Servable(s.files[f].scan) then 1 else 0
  {
    longer := CanComeToRest(ids, run);
    assert longer != [];
    hide IsRun;
    forall f | f in ids
      ensures var s := Last(longer);
              f in s.files && f in s.pushes && s.pushes[f] == if Servable(s.files[f].scan) then 1 else 0
    {
      ExactlyOnce(ids, longer, f);
    }
  }
}
