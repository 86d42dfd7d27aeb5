/** What every run of the hand-off keeps, and what that means for its files. */
module HandoffRuns {
  import opened Basics
  import opened Handoff
  import opened HandoffClaims

  // Coverage: what each way of covering a file turns into.

  /** Every way `f` was covered in `s` is still there in `t`. */
  lemma CoverageCarries(s: State, t: State, f: FileId)
    requires Covered(s, f)
    requires s.creation == Underway ==> t.creation == Underway
    requires s.announcements > 0 ==> t.announcements > 0
    requires forall p <- s.passes :: WillAnnounce(s.passes[p]) ==>
               (p in t.passes && WillAnnounce(t.passes[p])) || t.announcements > 0
    requires forall w <- s.workers :: AboutToList(s.workers[w]) || f in Ahead(s.workers[w]) ==>
               w in t.workers && (AboutToList(t.workers[w]) || f in Ahead(t.workers[w]))
    ensures Covered(t, f)
  {
  }

  /** A handler about to list covers everything. */
  lemma ListerCovers(t: State, w: nat, f: FileId)
    requires w in t.workers && AboutToList(t.workers[w])
    ensures Covered(t, f)
  {
  }

  lemma ReaderCovers(t: State, w: nat, f: FileId)
    requires w in t.workers && f in Ahead(t.workers[w])
    ensures Covered(t, f)
  {
  }

  /** The invariant from its parts, coverage being shown file by file. */
  lemma InvFrom(t: State)
    requires PassesApart(t) && WorkersServable(t) && ClaimsExclusive(t)
    requires t.creation == Done <==> t.keyWritten
    requires forall f :: t.creation != Failed && Eligible(t, f) && f !in t.failed ==> Covered(t, f)
    ensures Inv(t)
  {
  }

  lemma CreateSucceedsKeepsInv(s: State, w: nat)
    requires Inv(s) && Enabled(s, CreateSucceeds(w))
    ensures Inv(Step(s, CreateSucceeds(w)))
  {
    var t := Step(s, CreateSucceeds(w));
    SameClaimsKept(s, t);
    forall f ensures Covered(t, f) { ListerCovers(t, w, f); }
  }

  lemma CreateFailsKeepsInv(s: State)
    requires Inv(s) && Enabled(s, CreateFails)
    ensures Inv(Step(s, CreateFails))
  {
    SameClaimsKept(s, Step(s, CreateFails));
  }

  lemma StartPassKeepsInv(s: State, p: nat, ids: seq<FileId>, retry: bool)
    requires Inv(s) && Enabled(s, StartPass(p, ids, retry))
    ensures Inv(Step(s, StartPass(p, ids, retry)))
  {
    hide PassesApart, ClaimsExclusive, NobodyForgotten, Covered;
    var t := Step(s, StartPass(p, ids, retry));
    StartPassApart(s, p, ids, retry);
    assert WorkersServable(t);
    hide WorkersServable;
    SameClaimsKept(s, t);
    forall f | t.creation != Failed && Eligible(t, f) && f !in t.failed ensures Covered(t, f) {
      PassEndsCover(s, StartPass(p, ids, retry), f);
    }
    InvFrom(t);
  }

  /** A worker moving on past files that need no push leaves covered what does. */
  lemma MovingOnCovers(s: State, t: State, w: nat, f: FileId)
    requires NobodyForgotten(s) && s.creation != Failed && Eligible(s, f) && f !in s.failed
    requires t.creation == s.creation && t.announcements == s.announcements && t.passes == s.passes
    requires w in s.workers && !AboutToList(s.workers[w])
    requires forall v <- s.workers :: v != w ==> v in t.workers && t.workers[v] == s.workers[v]
    requires f in Ahead(s.workers[w]) ==> w in t.workers && f in Ahead(t.workers[w])
    ensures Covered(t, f)
  {
  }

  lemma PassEndsCover(s: State, a: Action, f: FileId)
    requires NobodyForgotten(s) && s.creation != Failed && Eligible(s, f) && f !in s.failed
    requires Enabled(s, a) && (a.StartPass? || a.FinishPass?)
    ensures Covered(Step(s, a), f)
  {
    assert Covered(s, f);
    CoverageCarries(s, Step(s, a), f);
  }

  lemma ScanNextKeepsInv(s: State, p: nat, verdict: ScanStatus)
    requires Inv(s) && Enabled(s, ScanNext(p, verdict))
    ensures Inv(Step(s, ScanNext(p, verdict)))
  {
    var t := Step(s, ScanNext(p, verdict));
    ScanKeepsPasses(s, p, verdict);
    ScannedFile(s, p);
    ScanKeepsWorkers(s, p, verdict);
    SameClaimsKept(s, t);
    forall f | t.creation != Failed && Eligible(t, f) && f !in t.failed ensures Covered(t, f) {
      ScanCovers(s, p, verdict, f);
    }
    hide PassesApart, WorkersServable, ClaimsExclusive, Covered;
    InvFrom(t);
  }

  lemma FinishPassKeepsInv(s: State, p: nat)
    requires Inv(s) && Enabled(s, FinishPass(p))
    ensures Inv(Step(s, FinishPass(p)))
  {
    hide ClaimsExclusive, NobodyForgotten, Covered;
    var t := Step(s, FinishPass(p));
    assert forall q <- t.passes :: t.passes[q] == s.passes[q];
    assert PassesApart(t);
    hide PassesApart;
    assert WorkersServable(t);
    hide WorkersServable;
    SameClaimsKept(s, t);
    forall f | t.creation != Failed && Eligible(t, f) && f !in t.failed ensures Covered(t, f) {
      PassEndsCover(s, FinishPass(p), f);
    }
    InvFrom(t);
  }

  lemma DeliverKeepsInv(s: State, w: nat)
    requires Inv(s) && Enabled(s, Deliver(w))
    ensures Inv(Step(s, Deliver(w)))
  {
    hide ClaimsExclusive, NobodyForgotten;
    var t := Step(s, Deliver(w));
    SameClaimsKept(s, t);
    forall f ensures Covered(t, f) { ListerCovers(t, w, f); }
    InvFrom(t);
  }

  lemma ReadKeyKeepsInv(s: State, w: nat)
    requires Inv(s) && Enabled(s, ReadKey(w))
    ensures Inv(Step(s, ReadKey(w)))
  {
    hide ClaimsExclusive;
    var t := Step(s, ReadKey(w));
    SameClaimsKept(s, t);
    assert PassesApart(t);
    hide PassesApart;
    assert WorkersServable(t);
    hide WorkersServable;
    if s.keyWritten {
      forall f ensures Covered(t, f) { ListerCovers(t, w, f); }
    }
  }

  lemma ListKeepsInv(s: State, w: nat, order: seq<FileId>)
    requires Inv(s) && Enabled(s, List(w, order))
    ensures Inv(Step(s, List(w, order)))
  {
    hide ClaimsExclusive, NobodyForgotten, Covered;
    var t := Step(s, List(w, order));
    SameClaimsKept(s, t);
    assert PassesApart(t);
    hide PassesApart;
    assert WorkersServable(t);
    hide WorkersServable;
    forall f | Eligible(t, f) ensures Covered(t, f) {
      assert Eligible(s, f);
      ReaderCovers(t, w, f);
    }
    InvFrom(t);
  }

  lemma ClaimKeepsInv(s: State, w: nat)
    requires Inv(s) && Enabled(s, Claim(w))
    ensures Inv(Step(s, Claim(w)))
  {
    hide PassesApart, WorkersServable, ClaimsExclusive, NobodyForgotten, Covered;
    var t := Step(s, Claim(w));
    ClaimKeepsClaims(s, w);
    ClaimKeepsWorkers(s, w);
    ClaimMissesPasses(s, w);
    forall f | t.creation != Failed && Eligible(t, f) && f !in t.failed ensures Covered(t, f) {
      assert f != s.workers[w].todo[0] && Eligible(s, f);
      MovingOnCovers(s, t, w, f);
    }
    InvFrom(t);
  }

  lemma PushSucceedsKeepsInv(s: State, w: nat)
    requires Inv(s) && Enabled(s, PushSucceeds(w))
    ensures Inv(Step(s, PushSucceeds(w)))
  {
    hide NobodyForgotten, Covered, PassesApart;
    var t := Step(s, PushSucceeds(w));
    var f := s.workers[w].file;
    assert Holds(s, w, f) && s.files[f].synced;
    LetGoKeepsClaims(s, t, w, f);
    PushKeepsWorkers(s, w);
    hide WorkersServable, ClaimsExclusive;
    forall g | t.creation != Failed && Eligible(t, g) && g !in t.failed ensures Covered(t, g) {
      assert g != f && Eligible(s, g);
      MovingOnCovers(s, t, w, g);
    }
    InvFrom(t);
  }

  lemma PushFailsKeepsInv(s: State, w: nat)
    requires Inv(s) && Enabled(s, PushFails(w))
    ensures Inv(Step(s, PushFails(w)))
  {
    hide NobodyForgotten, Covered, PassesApart;
    var t := Step(s, PushFails(w));
    var f := s.workers[w].file;
    assert Holds(s, w, f) && s.files[f].synced && s.pushes[f] == 0;
    LetGoKeepsClaims(s, t, w, f);
    FailureKeepsWorkers(s, w);
    FailureMissesPasses(s, w);
    hide WorkersServable, ClaimsExclusive;
    forall g | t.creation != Failed && Eligible(t, g) && g !in t.failed ensures Covered(t, g) {
      assert g != f && Eligible(s, g);
      MovingOnCovers(s, t, w, g);
    }
    InvFrom(t);
  }

  lemma FinishKeepsInv(s: State, w: nat)
    requires Inv(s) && Enabled(s, Finish(w))
    ensures Inv(Step(s, Finish(w)))
  {
    var t := Step(s, Finish(w));
    SameClaimsKept(s, t);
    assert WorkersServable(t);
    forall f | t.creation != Failed && Eligible(t, f) && f !in t.failed ensures Covered(t, f) {
      MovingOnCovers(s, t, w, f);
    }
    hide WorkersServable, ClaimsExclusive, Covered;
    assert PassesApart(t);
    InvFrom(t);
  }

  lemma ScanCovers(s: State, p: nat, verdict: ScanStatus, f: FileId)
    requires Inv(s) && Enabled(s, ScanNext(p, verdict))
    requires var t := Step(s, ScanNext(p, verdict)); Eligible(t, f) && f !in t.failed && t.creation != Failed
    ensures Covered(Step(s, ScanNext(p, verdict)), f)
  {
    var t := Step(s, ScanNext(p, verdict));
    hide PassesApart, WorkersServable, ClaimsExclusive;
    if f == s.passes[p].todo[0] {
      assert p in t.passes && WillAnnounce(t.passes[p]);
    } else {
      CoverageCarries(s, t, f);
    }
  }

  lemma StepKeepsInv(s: State, a: Action)
    requires Inv(s) && Enabled(s, a)
    ensures Inv(Step(s, a))
    ensures Step(s, a).files.Keys == s.files.Keys
  {
    hide Inv;
    match a
    case CreateSucceeds(w) => CreateSucceedsKeepsInv(s, w);
    case CreateFails => CreateFailsKeepsInv(s);
    case StartPass(p, ids, retry) => StartPassKeepsInv(s, p, ids, retry);
    case ScanNext(p, verdict) => ScanNextKeepsInv(s, p, verdict); ScanKeepsKeys(s, p, verdict);
    case FinishPass(p) => FinishPassKeepsInv(s, p);
    case Deliver(w) => DeliverKeepsInv(s, w);
    case ReadKey(w) => ReadKeyKeepsInv(s, w);
    case List(w, order) => ListKeepsInv(s, w, order);
    case Claim(w) => ClaimKeepsInv(s, w);
    case PushSucceeds(w) => PushSucceedsKeepsInv(s, w);
    case PushFails(w) => PushFailsKeepsInv(s, w);
    case Finish(w) => FinishKeepsInv(s, w);
  }

  lemma ScanKeepsKeys(s: State, p: nat, verdict: ScanStatus)
    requires Inv(s) && Enabled(s, ScanNext(p, verdict))
    ensures Step(s, ScanNext(p, verdict)).files.Keys == s.files.Keys
  {
  }

  lemma {:induction false} RunKeepsInv(ids: set<FileId>, run: seq<State>)
    requires IsRun(ids, run)
    ensures Inv(run[|run| - 1]) && run[|run| - 1].files.Keys == ids
  {
    hide Inv, Step, Possible, Exclusive;
    if |run| == 1 {
      StartInv(ids);
    } else {
      var front := run[..|run| - 1];
      forall k | 0 <= k < |front| - 1 ensures Next(front[k], front[k + 1]) {
        assert Next(run[k], run[k + 1]);
      }
      RunKeepsInv(ids, front);
      assert Next(run[|run| - 2], run[|run| - 1]);
      var a :| Enabled(run[|run| - 2], a) && run[|run| - 1] == Step(run[|run| - 2], a);
      StepKeepsInv(run[|run| - 2], a);
    }
  }

  // ---- What that means -----------------------------------------------------

  /** At every moment of every run, failures included: at most one handler holds a
      file, no file is ever pushed twice, and only cleared files are pushed. */
  lemma NeverTwice(ids: set<FileId>, run: seq<State>, f: FileId)
    requires IsRun(ids, run) && f in ids
    ensures var s := run[|run| - 1];
            && f in s.pushes && f in s.files && s.pushes[f] <= 1
            && (forall v, w :: Holds(s, v, f) && Holds(s, w, f) ==> v == w)
            && (s.pushes[f] == 1 ==>
                s.files[f].synced && s.files[f].scan in {Clean, Skipped} && forall w :: !Holds(s, w, f))
  {
    RunKeepsInv(ids, run);
  }

  /** Nothing is under way any more. */
  predicate Quiet(s: State) {
    s.creation != Underway && s.announcements == 0 && s.workers == map[] && s.passes == map[]
  }

  /** Once the Jira issue exists and everything has come to rest, every cleared
      file was pushed exactly once, whatever the order in which the key, the
      verdicts and the announcements were written and read, unless a push of that
      very file failed. */
  lemma ExactlyOnce(ids: set<FileId>, run: seq<State>, f: FileId)
    requires IsRun(ids, run) && f in ids
    requires var s := run[|run| - 1]; Quiet(s) && s.creation == Done && f !in s.failed
    ensures var s := run[|run| - 1];
            f in s.files && f in s.pushes && s.pushes[f] == if s.files[f].scan in {Clean, Skipped} then 1 else 0
  {
    RunKeepsInv(ids, run);
    var s := run[|run| - 1];
    assert forall w :: !Holds(s, w, f);
    assert !Covered(s, f);
    assert !Eligible(s, f);
  }
}
