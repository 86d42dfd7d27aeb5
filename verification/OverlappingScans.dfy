/** The hand-off when scan passes may overlap. A pass saves the row it loaded, push
    mark and all; exactly when that takes a mark away, or a verdict back, the claims
    on files stop being exclusive. */
module OverlappingScans {
  import opened Basics
  import opened Handoff
  import opened HandoffClaims

  /** Claims are exclusive, and only cleared files are held or to be claimed. */
  ghost predicate ClaimsSound(s: State) { ClaimsExclusive(s) && WorkersServable(s) }

  /** The scan that is saved finds its file without a push mark, and does not take
      back a file that some handler is yet to claim. */
  ghost predicate HarmlessScan(s: State, a: Action)
    requires Possible(s, a)
  {
    a.ScanNext? ==>
      var f := s.passes[a.pass].todo[0];
      && f in s.files && !s.files[f].synced
      && (Servable(a.verdict) || forall w <- s.workers :: f !in Ahead(s.workers[w]))
  }

  lemma PushStepKeepsClaims(s: State, w: nat)
    requires ClaimsSound(s) && Possible(s, PushSucceeds(w))
    ensures ClaimsSound(Step(s, PushSucceeds(w)))
  {
    var t, f := Step(s, PushSucceeds(w)), s.workers[w].file;
    assert Holds(s, w, f) && MayWork(s.files, s.workers[w]);
    LetGoKeepsClaims(s, t, w, f);
    hide ClaimsExclusive;
    assert MayWork(s.files, Syncing(s.workers[w].rest));
    hide MayWork;
  }

  lemma FailureStepKeepsClaims(s: State, w: nat)
    requires ClaimsSound(s) && Possible(s, PushFails(w))
    ensures ClaimsSound(Step(s, PushFails(w)))
  {
    var t, f := Step(s, PushFails(w)), s.workers[w].file;
    assert Holds(s, w, f) && MayWork(s.files, s.workers[w]);
    LetGoKeepsClaims(s, t, w, f);
    FailureKeepsWorkers(s, w);
  }

  lemma ListStepKeepsClaims(s: State, w: nat, order: seq<FileId>)
    requires ClaimsSound(s) && Possible(s, List(w, order))
    ensures ClaimsSound(Step(s, List(w, order)))
  {
    var t := Step(s, List(w, order));
    SameClaimsKept(s, t);
    hide ClaimsExclusive;
    assert forall v <- t.workers :: v != w ==> t.workers[v] == s.workers[v];
  }

  /** No file, count or claim changes; a handler may appear, read the key or leave. */
  ghost predicate OnlyHandlers(s: State, t: State) {
    && t.files == s.files && t.pushes == s.pushes
    && (forall w <- t.workers :: AboutToList(t.workers[w]) || (w in s.workers && t.workers[w] == s.workers[w]))
    && (forall w <- s.workers :: s.workers[w].Pushing? ==> w in t.workers && t.workers[w] == s.workers[w])
  }

  lemma OnlyHandlersKeepClaims(s: State, t: State)
    requires ClaimsSound(s) && OnlyHandlers(s, t)
    ensures ClaimsSound(t)
  {
    SameClaimsKept(s, t);
    hide ClaimsExclusive, MayWork;
    forall w | w in t.workers ensures MayWork(t.files, t.workers[w]) {
      if AboutToList(t.workers[w]) {
        ListersMayWork(t.files, t.workers[w]);
      }
    }
  }

  lemma OtherStepsKeepClaims(s: State, a: Action)
    requires ClaimsSound(s) && Possible(s, a)
    requires a.CreateSucceeds? || a.CreateFails? || a.StartPass? || a.FinishPass? || a.Deliver? || a.ReadKey?
             || a.Finish?
    ensures ClaimsSound(Step(s, a))
  {
    hide ClaimsSound;
    assert OnlyHandlers(s, Step(s, a));
    OnlyHandlersKeepClaims(s, Step(s, a));
  }

  lemma ListersMayWork(files: map<FileId, File>, w: Worker)
    requires AboutToList(w)
    ensures MayWork(files, w)
  {
  }

  /** Nothing but a scan can do harm, overlapping or not. */
  lemma StepKeepsClaims(s: State, a: Action)
    requires ClaimsSound(s) && Possible(s, a) && !a.ScanNext?
    ensures ClaimsSound(Step(s, a))
  {
    hide ClaimsExclusive, WorkersServable, Possible, Step;
    match a
    case List(w, order) => ListStepKeepsClaims(s, w, order);
    case Claim(w) => ClaimKeepsClaims(s, w); ClaimKeepsWorkers(s, w);
    case PushSucceeds(w) => PushStepKeepsClaims(s, w);
    case PushFails(w) => FailureStepKeepsClaims(s, w);
    case _ => OtherStepsKeepClaims(s, a);
  }

  lemma HarmlessScanKeeps(s: State, a: Action)
    requires ClaimsSound(s) && a.ScanNext? && Possible(s, a) && HarmlessScan(s, a)
    ensures ClaimsSound(Step(s, a))
  {
    var t, f := Step(s, a), s.passes[a.pass].todo[0];
    assert t.files == s.files[f := File(a.verdict, false)] && t.workers == s.workers;
    SameClaimsKept(s, t);
    hide ClaimsExclusive, Step, Possible;
    forall w | w in t.workers ensures MayWork(t.files, t.workers[w]) {
      assert MayWork(s.files, s.workers[w]);
    }
  }

  lemma HarmfulScanBreaks(s: State, a: Action)
    requires ClaimsSound(s) && a.ScanNext? && Possible(s, a) && !HarmlessScan(s, a)
    ensures !ClaimsSound(Step(s, a))
  {
    var t, f := Step(s, a), s.passes[a.pass].todo[0];
    assert t.files == s.files[f := File(a.verdict, false)] && t.workers == s.workers && t.pushes == s.pushes;
    hide Step, Possible;
    if f !in s.files {
      assert f in t.files.Keys && f !in t.pushes.Keys;
    } else if s.files[f].synced {
      if s.pushes[f] == 1 {
        assert !t.files[f].synced;
      } else {
        var w :| Holds(s, w, f);
        assert !MayWork(t.files, t.workers[w]);
      }
    } else {
      var w :| w in s.workers && f in Ahead(s.workers[w]);
      assert !MayWork(t.files, t.workers[w]);
    }
  }

  /** One step, overlapping or not, keeps the claims sound exactly when it saves no
      harmful scan. For a verdict that clears the file: exactly when the stored row
      has no push mark. */
  lemma StepKeepsClaimsIff(s: State, a: Action)
    requires ClaimsSound(s) && Possible(s, a)
    ensures ClaimsSound(Step(s, a)) <==> HarmlessScan(s, a)
  {
    hide ClaimsSound, HarmlessScan, Possible, Step;
    if !a.ScanNext? {
      StepKeepsClaims(s, a);
      assert HarmlessScan(s, a) by { NoScanIsHarmless(s, a); }
    } else if HarmlessScan(s, a) {
      HarmlessScanKeeps(s, a);
    } else {
      HarmfulScanBreaks(s, a);
    }
  }

  lemma NoScanIsHarmless(s: State, a: Action)
    requires Possible(s, a) && !a.ScanNext?
    ensures HarmlessScan(s, a)
  {
  }

  // ---- Over runs -------------------------------------------------------------

  /** The actions can be taken one after the other; passes may overlap. */
  ghost predicate CanRun(s: State, actions: seq<Action>)
    decreases |actions|
  {
    actions != [] ==> Possible(s, actions[0]) && CanRun(Step(s, actions[0]), actions[1..])
  }

  ghost function Run(s: State, actions: seq<Action>): State
    requires CanRun(s, actions)
    decreases |actions|
  {
    if actions == [] then s else Run(Step(s, actions[0]), actions[1..])
  }

  ghost predicate SoundThroughout(s: State, actions: seq<Action>)
    requires CanRun(s, actions)
    decreases |actions|
  {
    ClaimsSound(s) && (actions != [] ==> SoundThroughout(Step(s, actions[0]), actions[1..]))
  }

  ghost predicate OnlyHarmlessScans(s: State, actions: seq<Action>)
    requires CanRun(s, actions)
    decreases |actions|
  {
    actions != [] ==> HarmlessScan(s, actions[0]) && OnlyHarmlessScans(Step(s, actions[0]), actions[1..])
  }

  /** However scan passes overlap, claims stay exclusive throughout a run exactly when
      no harmful scan is saved; then no file is pushed twice. */
  lemma {:induction false} ClaimsStaySoundIff(s: State, actions: seq<Action>)
    requires ClaimsSound(s) && CanRun(s, actions)
    ensures SoundThroughout(s, actions) <==> OnlyHarmlessScans(s, actions)
    ensures OnlyHarmlessScans(s, actions) ==>
              forall f <- Run(s, actions).files :: f in Run(s, actions).pushes && Run(s, actions).pushes[f] <= 1
    decreases |actions|
  {
    if actions == [] {
      assert forall f <- s.files :: f in s.pushes && s.pushes[f] <= 1;
    }
    hide ClaimsSound, HarmlessScan, Possible, Step;
    if actions != [] {
      StepKeepsClaimsIff(s, actions[0]);
      if ClaimsSound(Step(s, actions[0])) {
        ClaimsStaySoundIff(Step(s, actions[0]), actions[1..]);
      } else {
        assert !SoundThroughout(Step(s, actions[0]), actions[1..]);
      }
    }
  }

  // ---- What a pass announces -------------------------------------------------

  /** Pass `p` saves a verdict that makes its file servable. */
  ghost predicate ClearsSome(actions: seq<Action>, p: nat) {
    exists k :: && 0 <= k < |actions| && actions[k].ScanNext? && actions[k].pass == p
                && actions[k].verdict in {Clean, Skipped}
  }

  lemma StepRemembers(s: State, a: Action, p: nat)
    requires Possible(s, a) && p in s.passes && a != FinishPass(p)
    ensures p in Step(s, a).passes && Step(s, a).passes[p].retry == s.passes[p].retry
    ensures Step(s, a).passes[p].cleared ==
            (s.passes[p].cleared || (a.ScanNext? && a.pass == p && a.verdict in {Clean, Skipped}))
  {
  }

  lemma {:induction false} PassRemembers(s: State, actions: seq<Action>, p: nat)
    requires CanRun(s, actions) && p in s.passes
    requires forall k :: 0 <= k < |actions| ==> actions[k] != FinishPass(p)
    ensures var t := Run(s, actions);
            p in t.passes && t.passes[p].retry == s.passes[p].retry
            && t.passes[p].cleared == (s.passes[p].cleared || ClearsSome(actions, p))
    decreases |actions|
  {
    if actions != [] {
      StepRemembers(s, actions[0], p);
      hide Possible, Step;
      PassRemembers(Step(s, actions[0]), actions[1..], p);
      assert forall k :: 1 <= k < |actions| ==> actions[k] == actions[1..][k - 1];
      assert ClearsSome(actions, p) <==>
             || ClearsSome(actions[1..], p)
             || (actions[0].ScanNext? && actions[0].pass == p && actions[0].verdict in {Clean, Skipped});
    }
  }

  /** Whatever else goes on, the end of a pass is announced exactly when it is the
      intake pass or made some file servable. */
  lemma AnnouncedIffCleared(s: State, p: nat, ids: seq<FileId>, retry: bool, during: seq<Action>)
    requires Possible(s, StartPass(p, ids, retry)) && CanRun(Step(s, StartPass(p, ids, retry)), during)
    requires forall k :: 0 <= k < |during| ==> during[k] != FinishPass(p)
    requires Possible(Run(Step(s, StartPass(p, ids, retry)), during), FinishPass(p))
    ensures var t := Run(Step(s, StartPass(p, ids, retry)), during);
            Step(t, FinishPass(p)).announcements ==
            t.announcements + if !retry || ClearsSome(during, p) then 1 else 0
  {
    PassRemembers(Step(s, StartPass(p, ids, retry)), during, p);
    hide CanRun, Run, ClearsSome;
  }

  // ---- A run that pushes a file twice --------------------------------------------

  /** The file 7, cleared or not, marked or not, and how often it was pushed. */
  predicate FileIs(s: State, scan: ScanStatus, synced: bool, pushes: nat) {
    s.files == map[7 := File(scan, synced)] && s.pushes == map[7 := pushes]
  }

  function PushRound(w: nat): seq<Action> { [List(w, [7]), Claim(w), PushSucceeds(w)] }

  // The steps such a run takes, one by one.

  lemma StartStep(s: State, p: nat, retry: bool)
    requires p !in s.passes && s.files == map[7 := File(Pending, false)]
    ensures Possible(s, StartPass(p, [7], retry))
    ensures Step(s, StartPass(p, [7], retry)) == s.(passes := s.passes[p := ScanPass([7], retry, false)])
  {
  }

  lemma ScanStep(s: State, p: nat, retry: bool)
    requires p in s.passes && s.passes[p] == ScanPass([7], retry, false) && s.files.Keys == {7}
    ensures Possible(s, ScanNext(p, Clean))
    ensures Step(s, ScanNext(p, Clean)) ==
            s.(files := map[7 := File(Clean, false)], passes := s.passes[p := ScanPass([], retry, true)])
  {
    assert [7][1..] == [];
    assert s.files[7 := File(Clean, false)] == map[7 := File(Clean, false)];
  }

  lemma CreateStep(s: State)
    requires s.creation == Underway && s.workers == map[]
    ensures Possible(s, CreateSucceeds(0))
    ensures Step(s, CreateSucceeds(0)) == s.(keyWritten := true, creation := Done, workers := map[0 := Keyed])
  {
  }

  lemma AnnounceSteps(s: State, p: nat, w: nat)
    requires p in s.passes && s.passes[p] == ScanPass([], true, true) && w !in s.workers && s.keyWritten
    ensures Possible(s, FinishPass(p))
    ensures var s1 := Step(s, FinishPass(p));
            Possible(s1, Deliver(w)) && Possible(Step(s1, Deliver(w)), ReadKey(w))
            && Step(Step(s1, Deliver(w)), ReadKey(w)) == s.(passes := s.passes - {p}, workers := s.workers[w := Keyed])
  {
    var s1 := Step(s, FinishPass(p));
    assert s1 == s.(passes := s.passes - {p}, announcements := s.announcements + 1);
    var s2 := Step(s1, Deliver(w));
    assert s2 == s1.(announcements := s.announcements, workers := s.workers[w := Handling]);
    assert s.workers[w := Handling][w := Keyed] == s.workers[w := Keyed];
  }

  lemma ListStep(s: State, w: nat)
    requires s.files == map[7 := File(Clean, false)] && w in s.workers && s.workers[w] == Keyed
    ensures Possible(s, List(w, [7])) && Step(s, List(w, [7])) == WithWorker(s, w, Syncing([7]))
  {
    assert Eligible(s, 7);
  }

  lemma ClaimStep(s: State, w: nat)
    requires s.files == map[7 := File(Clean, false)] && w in s.workers && s.workers[w] == Syncing([7])
    ensures Possible(s, Claim(w))
    ensures Step(s, Claim(w)) == WithWorker(s.(files := map[7 := File(Clean, true)]), w, Pushing(7, []))
  {
    assert [7][1..] == [];
    assert s.files[7 := File(Clean, true)] == map[7 := File(Clean, true)];
  }

  lemma PushStep(s: State, w: nat, n: nat)
    requires FileIs(s, Clean, true, n) && w in s.workers && s.workers[w] == Pushing(7, [])
    ensures Possible(s, PushSucceeds(w))
    ensures Step(s, PushSucceeds(w)) == WithWorker(s.(pushes := map[7 := n + 1]), w, Syncing([]))
  {
    assert s.pushes[7 := n + 1] == map[7 := n + 1];
  }

  lemma Three(s: State, a: Action, b: Action, c: Action)
    requires Possible(s, a) && Possible(Step(s, a), b) && Possible(Step(Step(s, a), b), c)
    ensures CanRun(s, [a, b, c]) && Run(s, [a, b, c]) == Step(Step(Step(s, a), b), c)
  {
    hide Possible, Step;
    var all := [a, b, c];
    var s1 := Step(s, a);
    var s2 := Step(s1, b);
    assert all[3..] == [] && CanRun(Step(s2, c), all[3..]);
    OneStep(s2, all, 2);
    OneStep(s1, all, 1);
    OneStep(s, all, 0);
    assert all[0..] == all;
  }

  /** A handler that lists the cleared, unmarked file pushes it. */
  lemma PushRoundPushes(s: State, w: nat, n: nat)
    requires FileIs(s, Clean, false, n) && w in s.workers && s.workers[w] == Keyed
    ensures CanRun(s, PushRound(w))
    ensures var t := Run(s, PushRound(w));
            && FileIs(t, Clean, true, n + 1) && t.workers == s.workers[w := Syncing([])]
            && t.passes == s.passes && t.keyWritten == s.keyWritten
  {
    hide Possible, Step, CanRun, Run;
    ListStep(s, w);
    var s1 := Step(s, List(w, [7]));
    ClaimStep(s1, w);
    var s2 := Step(s1, Claim(w));
    PushStep(s2, w, n);
    Three(s, List(w, [7]), Claim(w), PushSucceeds(w));
  }

  /** Intake and a retry pass both load the file; the first clears it. */
  function BothLoadIt(): seq<Action> {
    [StartPass(0, [7], false), StartPass(1, [7], true), ScanNext(0, Clean)]
  }

  lemma LoadedTwice()
    ensures CanRun(Start({7}), BothLoadIt())
    ensures Run(Start({7}), BothLoadIt()) == Start({7}).(files := map[7 := File(Clean, false)],
              passes := map[0 := ScanPass([], false, true), 1 := ScanPass([7], true, false)])
  {
    var s := Start({7});
    assert s.files == map[7 := File(Pending, false)];
    hide Possible, Step, CanRun, Run;
    StartStep(s, 0, false);
    var s1 := Step(s, StartPass(0, [7], false));
    StartStep(s1, 1, true);
    var s2 := Step(s1, StartPass(1, [7], true));
    ScanStep(s2, 0, false);
    Three(s, StartPass(0, [7], false), StartPass(1, [7], true), ScanNext(0, Clean));
    assert s2.passes[0 := ScanPass([], false, true)] ==
        map[0 := ScanPass([], false, true), 1 := ScanPass([7], true, false)];
  }

  /** Then the retry pass saves its own copy of the row, and announces it. */
  function Announced(): seq<Action> { [FinishPass(1), Deliver(1), ReadKey(1)] }

  lemma MarkIsGone(s: State)
    requires FileIs(s, Clean, true, 1) && s.workers == map[0 := Syncing([])] && s.keyWritten
    requires s.passes == map[0 := ScanPass([], false, true), 1 := ScanPass([7], true, false)]
    ensures CanRun(s, [ScanNext(1, Clean)]) && CanRun(Run(s, [ScanNext(1, Clean)]), Announced())
    ensures var t := Run(Run(s, [ScanNext(1, Clean)]), Announced());
            FileIs(t, Clean, false, 1) && t.workers == map[0 := Syncing([]), 1 := Keyed]
  {
    ScanStep(s, 1, true);
    var s1 := Step(s, ScanNext(1, Clean));
    One(s, ScanNext(1, Clean));
    hide Possible, Step, CanRun, Run;
    AnnounceSteps(s1, 1, 1);
    Three(s1, FinishPass(1), Deliver(1), ReadKey(1));
  }

  lemma One(s: State, a: Action)
    requires Possible(s, a)
    ensures CanRun(s, [a]) && Run(s, [a]) == Step(s, a)
  {
    hide Possible, Step;
    assert [a][1..] == [];
    assert CanRun(Step(s, a), []);
  }

  lemma OneStep(s: State, a: seq<Action>, k: nat)
    requires k < |a| && Possible(s, a[k]) && CanRun(Step(s, a[k]), a[k + 1..])
    ensures CanRun(s, a[k..]) && Run(s, a[k..]) == Run(Step(s, a[k]), a[k + 1..])
  {
    assert a[k..][0] == a[k] && a[k..][1..] == a[k + 1..];
  }

  lemma {:induction false} RunsJoin(s: State, a: seq<Action>, b: seq<Action>)
    requires CanRun(s, a) && CanRun(Run(s, a), b)
    ensures CanRun(s, a + b) && Run(s, a + b) == Run(Run(s, a), b)
    decreases |a|
  {
    hide Possible, Step;
    if a == [] {
      assert a + b == b;
    } else {
      RunsJoin(Step(s, a[0]), a[1..], b);
      assert (a + b)[0] == a[0] && (a + b)[1..] == a[1..] + b;
    }
  }

  function Created(): seq<Action> { BothLoadIt() + [CreateSucceeds(0)] }

  lemma CreatedThen()
    ensures CanRun(Start({7}), Created())
    ensures var t := Run(Start({7}), Created());
            && FileIs(t, Clean, false, 0) && t.workers == map[0 := Keyed] && t.keyWritten
            && t.passes == map[0 := ScanPass([], false, true), 1 := ScanPass([7], true, false)]
  {
    var s := Start({7});
    assert s.pushes == map[7 := 0] && s.creation == Underway && s.workers == map[];
    hide Possible, Step, CanRun, Run, BothLoadIt, Start;
    LoadedTwice();
    var s1 := Run(s, BothLoadIt());
    CreateStep(s1);
    One(s1, CreateSucceeds(0));
    RunsJoin(s, BothLoadIt(), [CreateSucceeds(0)]);
  }

  function FirstPush(): seq<Action> { Created() + PushRound(0) }

  lemma FirstPushes()
    ensures CanRun(Start({7}), FirstPush())
    ensures var t := Run(Start({7}), FirstPush());
            && FileIs(t, Clean, true, 1) && t.workers == map[0 := Syncing([])] && t.keyWritten
            && t.passes == map[0 := ScanPass([], false, true), 1 := ScanPass([7], true, false)]
  {
    hide Possible, Step, CanRun, Run, Created, PushRound, Start;
    CreatedThen();
    PushRoundPushes(Run(Start({7}), Created()), 0, 0);
    RunsJoin(Start({7}), Created(), PushRound(0));
  }

  function SecondPush(): seq<Action> { [ScanNext(1, Clean)] + Announced() + PushRound(1) }

  lemma SecondPushes(s: State)
    requires FileIs(s, Clean, true, 1) && s.workers == map[0 := Syncing([])] && s.keyWritten
    requires s.passes == map[0 := ScanPass([], false, true), 1 := ScanPass([7], true, false)]
    ensures CanRun(s, SecondPush()) && Run(s, SecondPush()).pushes == map[7 := 2]
  {
    MarkIsGone(s);
    hide Possible, Step, CanRun, Run, PushRound, Announced;
    var scan := [ScanNext(1, Clean)];
    var s1 := Run(s, scan);
    var s2 := Run(s1, Announced());
    PushRoundPushes(s2, 1, 1);
    RunsJoin(s, scan, Announced());
    RunsJoin(s, scan + Announced(), PushRound(1));
  }

  /** So one scan in flight per file is needed: from a new issue with one file, a run
      with overlapping passes pushes it twice. */
  lemma OverlappingScansPushTwice()
    ensures CanRun(Start({7}), FirstPush() + SecondPush())
    ensures Run(Start({7}), FirstPush() + SecondPush()).pushes == map[7 := 2]
  {
    FirstPushes();
    SecondPushes(Run(Start({7}), FirstPush()));
    hide CanRun, Run, FirstPush, SecondPush, Start;
    RunsJoin(Start({7}), FirstPush(), SecondPush());
  }
}
