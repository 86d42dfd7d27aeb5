/** Merging duplicates: the checks and the flattening of the merge service, the
    forest its pointers form, and which issues are duplicates of which. */
module Duplicates {
  import opened Basics
  import opened Access
  import opened Lifecycle
  import opened LifecycleInvariants

  // ---- The merge -----------------------------------------------------------

  /** The issue a merge into `canonicalId` lands on, after one flattening step. */
  function MergeTarget(w: World, id: IssueId, canonicalId: IssueId, seen: nat): Result<IssueId, Refusal> {
    if id == canonicalId then Err(SelfMerge)
    else if id !in w.issues || canonicalId !in w.issues then Err(NotFound)
    else
      var duplicate, canonical := w.issues[id], w.issues[canonicalId];
      if duplicate.platform != canonical.platform then Err(OtherPlatform)
      else if duplicate.duplicateOf.Some? then Err(AlreadyMerged)
      else if duplicate.status == Closed then Err(DuplicateClosed)
      else if seen != duplicate.version then Err(VersionConflict)
      else
        match canonical.duplicateOf
        case None => if canonical.status == Closed then Err(CanonicalClosed) else Ok(canonicalId)
        case Some(root) =>
          if root !in w.issues || w.issues[root].duplicateOf.Some? then Err(CanonicalUnresolvable)
          else if root == id then Err(SelfMerge)
          else if w.issues[root].status == Closed then Err(CanonicalClosed)
          else Ok(root)
  }

  function Merge(w: World, actor: Staff, id: IssueId, canonicalId: IssueId, seen: nat, now: Time):
      (World, Option<Refusal>)
  {
    match MergeTarget(w, id, canonicalId, seen)
    case Err(e) => (w, Some(e))
    case Ok(root) => EditNow(w, id, CloseAsDuplicate(actor, root, seen, now))
  }

  /** When a merge is accepted, and where it lands: on the issue asked for or, if that
      is itself a duplicate, on the one it was merged into. */
  lemma MergeAcceptedIff(w: World, id: IssueId, canonicalId: IssueId, seen: nat, root: IssueId)
    ensures MergeTarget(w, id, canonicalId, seen) == Ok(root)
       <==> && id != canonicalId && id in w.issues && canonicalId in w.issues
            && w.issues[id].platform == w.issues[canonicalId].platform
            && w.issues[id].duplicateOf == None && w.issues[id].status != Closed && w.issues[id].version == seen
            && root == OrElse(w.issues[canonicalId].duplicateOf, canonicalId)
            && root != id && root in w.issues
            && w.issues[root].duplicateOf == None && w.issues[root].status != Closed
  {
  }

  /** Why a merge is refused: the first thing that stands in its way. */
  lemma MergeRefusedBecause(w: World, id: IssueId, canonicalId: IssueId, seen: nat, e: Refusal)
    ensures MergeTarget(w, id, canonicalId, seen) == Err(e) <==>
            if id == canonicalId then e == SelfMerge
            else if !({id, canonicalId} <= w.issues.Keys) then e == NotFound
            else
              var d, c := w.issues[id], w.issues[canonicalId];
              var root := OrElse(c.duplicateOf, canonicalId);
              if d.platform != c.platform then e == OtherPlatform
              else if d.duplicateOf != None then e == AlreadyMerged
              else if d.status == Closed then e == DuplicateClosed
              else if d.version != seen then e == VersionConflict
              else if root !in w.issues || w.issues[root].duplicateOf != None then e == CanonicalUnresolvable
              else if root == id then e == SelfMerge
              else w.issues[root].status == Closed && e == CanonicalClosed
  {
  }

  /** Issue 1 is merged into 2, which was merged into 3: it lands on 3. */
  lemma FlatteningLandsOnTheRoot(w: World, i: Issue)
    requires {1, 2, 3} <= w.issues.Keys && w.issues[1] == i && i.duplicateOf == None && i.status != Closed
    requires w.issues[2].platform == i.platform && w.issues[2].duplicateOf == Some(3)
    requires w.issues[3].duplicateOf == None && w.issues[3].status != Closed
    ensures MergeTarget(w, 1, 2, i.version) == Ok(3)
  {
    MergeAcceptedIff(w, 1, 2, i.version, 3);
  }

  // ---- The graph of duplicate pointers -------------------------------------

  type Issues = map<IssueId, Issue>

  function Parent(issues: Issues, id: IssueId): Option<IssueId> {
    if id in issues then issues[id].duplicateOf else None
  }

  /** `n` hops along the pointers. */
  function Hop(issues: Issues, id: IssueId, n: nat): Option<IssueId>
    decreases n
  {
    if n == 0 then Some(id)
    else match Parent(issues, id)
      case None => None
      case Some(next) => Hop(issues, next, n - 1)
  }

  /** Following the pointers from `id` ends within `n` hops. */
  predicate EndsWithin(issues: Issues, id: IssueId, n: nat) {
    Hop(issues, id, n).None?
  }

  ghost predicate Acyclic(issues: Issues) {
    forall id <- issues :: exists n: nat :: EndsWithin(issues, id, n)
  }

  /** Pointers stay on the table and within one platform. */
  ghost predicate SamePlatform(issues: Issues) {
    forall id <- issues :: issues[id].duplicateOf.Some? ==>
      && issues[id].duplicateOf.value in issues
      && issues[issues[id].duplicateOf.value].platform == issues[id].platform
  }

  ghost predicate Forest(issues: Issues) { Acyclic(issues) && SamePlatform(issues) }

  lemma {:induction false} HopAdd(issues: Issues, id: IssueId, m: nat, n: nat)
    ensures Hop(issues, id, m + n) == match Hop(issues, id, m) case None => None case Some(j) => Hop(issues, j, n)
    decreases m
  {
    if m > 0 {
      match Parent(issues, id) {
        case None =>
        case Some(next) => HopAdd(issues, next, m - 1, n);
      }
    }
  }

  lemma {:induction false} CycleRepeats(issues: Issues, id: IssueId, k: nat, times: nat)
    requires Hop(issues, id, k) == Some(id)
    ensures Hop(issues, id, k * times) == Some(id)
    decreases times
  {
    if times > 0 {
      CycleRepeats(issues, id, k, times - 1);
      HopAdd(issues, id, k * (times - 1), k);
      assert k * times == k * (times - 1) + k;
    }
  }

  /** No issue is, through any chain of merges, a duplicate of itself. */
  lemma AcyclicMeansNoCycle(issues: Issues, id: IssueId, k: nat)
    requires Acyclic(issues) && id in issues && k > 0
    ensures Hop(issues, id, k) != Some(id)
  {
    var n: nat :| EndsWithin(issues, id, n);
    hide Acyclic;
    if Hop(issues, id, k) == Some(id) {
      CycleRepeats(issues, id, k, n);
      Multiple(k, n);
      EndedStaysEnded(issues, id, n, k * n);
      assert false;
    }
  }

  lemma Multiple(k: nat, n: nat)
    requires k > 0
    ensures k * n >= n
  {
  }

  lemma EndedStaysEnded(issues: Issues, id: IssueId, n: nat, m: nat)
    requires EndsWithin(issues, id, n) && n <= m
    ensures EndsWithin(issues, id, m)
  {
    HopAdd(issues, id, n, m - n);
  }

  // ---- Rows that keep their pointer ----------------------------------------

  /** `after` has every row of `before`, on the same platform, and each pointer
      is the old one or gone. */
  ghost predicate PointersOnlyDrop(before: Issues, after: Issues) {
    && before.Keys <= after.Keys
    && (forall id <- before :: after[id].platform == before[id].platform)
    && (forall id <- after :: after[id].duplicateOf.Some? ==>
          id in before && after[id].duplicateOf == before[id].duplicateOf)
  }

  lemma DropsCompose(a: Issues, b: Issues, c: Issues)
    requires PointersOnlyDrop(a, b) && PointersOnlyDrop(b, c)
    ensures PointersOnlyDrop(a, c)
  {
  }

  lemma {:induction false} DroppingShortens(before: Issues, after: Issues, id: IssueId, n: nat)
    requires PointersOnlyDrop(before, after) && EndsWithin(before, id, n)
    ensures EndsWithin(after, id, n)
    decreases n
  {
    if Parent(after, id).Some? {
      DroppingShortens(before, after, Parent(after, id).value, n - 1);
    }
  }

  lemma DroppingKeepsForest(before: Issues, after: Issues)
    requires PointersOnlyDrop(before, after) && Forest(before)
    ensures Forest(after)
  {
    forall id | id in after ensures exists n: nat :: EndsWithin(after, id, n) {
      if id in before {
        var n: nat :| EndsWithin(before, id, n);
        DroppingShortens(before, after, id, n);
      } else {
        assert after[id].duplicateOf.None?;
        assert Hop(after, id, 1).None?;
        assert EndsWithin(after, id, 1);
      }
    }
  }

  // ---- One new pointer -----------------------------------------------------

  /** `after` is `before` with the root `d` pointed at `c`. */
  ghost predicate PointsAt(before: Issues, after: Issues, d: IssueId, c: IssueId) {
    && after.Keys == before.Keys
    && d in before && c in before && before[d].duplicateOf.None?
    && after[d].duplicateOf == Some(c)
    && (forall id <- before :: after[id].platform == before[id].platform)
    && (forall id <- before :: id != d ==> after[id].duplicateOf == before[id].duplicateOf)
  }

  /** `d` lies on the chain from `c`. */
  ghost predicate Reaches(issues: Issues, c: IssueId, d: IssueId) {
    exists n: nat :: Hop(issues, c, n) == Some(d)
  }

  lemma {:induction false} AvoidingUnchanged(before: Issues, after: Issues, d: IssueId, c: IssueId, id: IssueId, n: nat)
    requires PointsAt(before, after, d, c) && !Reaches(before, id, d)
    ensures Hop(after, id, n) == Hop(before, id, n)
    decreases n
  {
    if n > 0 {
      assert Hop(before, id, 0) == Some(id);
      if Parent(before, id).Some? {
        var next := Parent(before, id).value;
        forall m: nat ensures Hop(before, next, m) != Some(d) {
          assert Hop(before, id, m + 1) == Hop(before, next, m);
        }
        AvoidingUnchanged(before, after, d, c, next, n - 1);
      }
    }
  }

  lemma {:induction false} EndsThrough(before: Issues, after: Issues, d: IssueId, c: IssueId, id: IssueId,
                                       n: nat, m: nat)
    requires PointsAt(before, after, d, c)
    requires EndsWithin(before, id, n) && EndsWithin(after, c, m)
    ensures EndsWithin(after, id, n + m)
    decreases n
  {
    if id == d {
      assert Parent(after, d) == Some(c);
      HopAdd(after, c, m, n - 1);
      assert n > 0;
      assert Hop(after, d, n + m) == Hop(after, c, n + m - 1);
    } else if Parent(before, id).Some? {
      EndsThrough(before, after, d, c, Parent(before, id).value, n - 1, m);
    } else {
      assert n + m > 0;
    }
  }

  /** Pointing a root somewhere keeps the pointers acyclic exactly when the root
      is not on the chain it is pointed at. */
  lemma PointingKeepsAcyclicIff(before: Issues, after: Issues, d: IssueId, c: IssueId)
    requires Acyclic(before) && PointsAt(before, after, d, c)
    ensures Acyclic(after) <==> !Reaches(before, c, d)
  {
    if Reaches(before, c, d) {
      var n: nat :| Hop(before, c, n) == Some(d);
      ReachingSurvives(before, after, d, c, c, n);
      var m: nat :| Hop(after, c, m) == Some(d);
      assert Hop(after, d, m + 1) == Some(d);
      if Acyclic(after) {
        AcyclicMeansNoCycle(after, d, m + 1);
      }
    } else {
      var m: nat :| EndsWithin(before, c, m);
      AvoidingUnchanged(before, after, d, c, c, m);
      forall id | id in after ensures exists n: nat :: EndsWithin(after, id, n) {
        var n: nat :| EndsWithin(before, id, n);
        EndsThrough(before, after, d, c, id, n, m);
      }
    }
  }

  lemma {:induction false} ReachingSurvives(before: Issues, after: Issues, d: IssueId, c: IssueId, id: IssueId, n: nat)
    requires PointsAt(before, after, d, c) && Hop(before, id, n) == Some(d)
    ensures exists m: nat :: Hop(after, id, m) == Some(d)
    decreases n
  {
    if id == d {
      assert Hop(after, id, 0) == Some(d);
    } else {
      var next := Parent(before, id).value;
      ReachingSurvives(before, after, d, c, next, n - 1);
      var m: nat :| Hop(after, next, m) == Some(d);
      assert Hop(after, id, m + 1) == Some(d);
    }
  }

  // ---- Every operation keeps the forest ------------------------------------

  lemma EditDropsPointers(w: World, id: IssueId, cmd: Cmd)
    requires !cmd.CloseAsDuplicate?
    ensures PointersOnlyDrop(w.issues, EditNow(w, id, cmd).0.issues)
  {
  }

  lemma WriteKeepsPointers(w: World, id: IssueId, b: Blind)
    ensures PointersOnlyDrop(w.issues, Write(w, id, b).issues)
  {
  }

  /** Staff edits, Jira updates and blind updates: reopening only ever takes an
      issue off its chain. */
  lemma EditKeepsForest(w: World, id: IssueId, cmd: Cmd)
    requires Forest(w.issues) && !cmd.CloseAsDuplicate?
    ensures Forest(EditNow(w, id, cmd).0.issues)
  {
    EditDropsPointers(w, id, cmd);
    DroppingKeepsForest(w.issues, EditNow(w, id, cmd).0.issues);
  }

  lemma WriteKeepsForest(w: World, id: IssueId, b: Blind)
    requires Forest(w.issues)
    ensures Forest(Write(w, id, b).issues)
  {
    WriteKeepsPointers(w, id, b);
    DroppingKeepsForest(w.issues, Write(w, id, b).issues);
  }

  lemma CreateKeepsForest(w: World, id: IssueId, platform: PlatformId, now: Time)
    requires Forest(w.issues)
    ensures Forest(Create(w, id, platform, now).issues)
  {
    DroppingKeepsForest(w.issues, Create(w, id, platform, now).issues);
  }

  /** A merge joins a root to a different root, on the same platform, neither of
      them CLOSED. That the flattened root is on the same platform is not checked
      by the merge: it follows from the forest itself. */
  lemma MergeJoinsRoots(w: World, id: IssueId, canonicalId: IssueId, seen: nat)
    requires Forest(w.issues) && MergeTarget(w, id, canonicalId, seen).Ok?
    ensures var root := MergeTarget(w, id, canonicalId, seen).value;
            && root != id && id in w.issues && root in w.issues
            && w.issues[id].duplicateOf.None? && w.issues[root].duplicateOf.None?
            && w.issues[id].status != Closed && w.issues[root].status != Closed
            && w.issues[id].platform == w.issues[root].platform
            && (root == canonicalId || Parent(w.issues, canonicalId) == Some(root))
  {
  }

  lemma MergePoints(w: World, actor: Staff, id: IssueId, canonicalId: IssueId, seen: nat, now: Time)
    requires Forest(w.issues) && MergeTarget(w, id, canonicalId, seen).Ok?
    ensures var root := MergeTarget(w, id, canonicalId, seen).value;
            && Merge(w, actor, id, canonicalId, seen, now).1.None?
            && PointsAt(w.issues, Merge(w, actor, id, canonicalId, seen, now).0.issues, id, root)
            && Merge(w, actor, id, canonicalId, seen, now).0.issues[id].status == Closed
  {
  }

  /** Nobody stops hearing about the problem: whoever watches the duplicate watches
      the issue it is merged into afterwards, no other watch appears and none is
      lost; the close is on record with where it pointed, and both issues are
      commented on. */
  lemma MergeCarriesWatchers(w: World, actor: Staff, id: IssueId, canonicalId: IssueId, seen: nat, now: Time,
                             s: StaffId, i: IssueId)
    requires Forest(w.issues) && MergeTarget(w, id, canonicalId, seen).Ok?
    ensures var root, after :=
              MergeTarget(w, id, canonicalId, seen).value, Merge(w, actor, id, canonicalId, seen, now).0;
            && ((i, s) in after.watchers <==> (i, s) in w.watchers || (i == root && (id, s) in w.watchers))
            && (id, root) in after.duplicateLinks
            && after.audit ==
               w.audit + [Entry(id, Merging(root)), Entry(id, StatusChange(w.issues[id].status, Closed, ByMerge))]
            && after.notes ==
               w.notes + [Note(id, Some(actor.id), ClosedAsDuplicate), Note(root, Some(actor.id), MergedHere(id))]
  {
  }

  /** Atomic merges keep the duplicate pointers a forest within platforms. */
  lemma MergeKeepsForest(w: World, actor: Staff, id: IssueId, canonicalId: IssueId, seen: nat, now: Time)
    requires Forest(w.issues)
    ensures Forest(Merge(w, actor, id, canonicalId, seen, now).0.issues)
  {
    if MergeTarget(w, id, canonicalId, seen).Ok? {
      var root := MergeTarget(w, id, canonicalId, seen).value;
      var after := Merge(w, actor, id, canonicalId, seen, now).0.issues;
      MergeJoinsRoots(w, id, canonicalId, seen);
      MergePoints(w, actor, id, canonicalId, seen, now);
      forall n: nat ensures Hop(w.issues, root, n) != Some(id) {
        assert n > 0 ==> Hop(w.issues, root, n).None?;
      }
      PointingKeepsAcyclicIff(w.issues, after, id, root);
    }
  }

  lemma MergeKeepsSound(w: World, actor: Staff, id: IssueId, canonicalId: IssueId, seen: nat, now: Time)
    requires Sound(w)
    ensures Sound(Merge(w, actor, id, canonicalId, seen, now).0)
  {
    if MergeTarget(w, id, canonicalId, seen).Ok? {
      EditKeepsSound(w, id, CloseAsDuplicate(actor, MergeTarget(w, id, canonicalId, seen).value, seen, now));
    }
  }

  // ---- When the merge is not atomic ----------------------------------------

  /** The save of a merge whose canonical was read earlier keeps the pointers
      acyclic exactly when, by then, the duplicate is not on the canonical's chain. */
  lemma LateMergeKeepsAcyclicIff(w: World, id: IssueId, actor: Staff, canonical: IssueId, seen: nat, now: Time)
    requires Forest(w.issues) && canonical in w.issues
    requires EditNow(w, id, CloseAsDuplicate(actor, canonical, seen, now)).1.None?
    ensures Acyclic(EditNow(w, id, CloseAsDuplicate(actor, canonical, seen, now)).0.issues)
       <==> !Reaches(w.issues, canonical, id)
  {
    var cmd := CloseAsDuplicate(actor, canonical, seen, now);
    var saved := Save(w, id, seen, Decide(w.issues[id], cmd).value).value;
    assert Aftermath(saved, id, cmd).issues == saved.issues;
    PointingKeepsAcyclicIff(w.issues, EditNow(w, id, cmd).0.issues, id, canonical);
  }

  /** The canonical is read without a guard, so two merges of each other that both
      read before either saves close a cycle. */
  lemma ConcurrentMergesCloseACycle(a: Issue, b: Issue, actor: Staff, now: Time)
    requires a.status != Closed && b.status != Closed && a.platform == b.platform
    requires a.duplicateOf.None? && b.duplicateOf.None?
    ensures var w := World(map[1 := a, 2 := b], [], {}, {}, []);
            var w1 := Commit(w, 1, a, CloseAsDuplicate(actor, 2, a.version, now)).0;
            var w2 := Commit(w1, 2, b, CloseAsDuplicate(actor, 1, b.version, now)).0;
            && MergeTarget(w, 1, 2, a.version) == Ok(2) && MergeTarget(w, 2, 1, b.version) == Ok(1)
            && Forest(w.issues) && !Acyclic(w2.issues)
  {
    var w := World(map[1 := a, 2 := b], [], {}, {}, []);
    var w1 := Commit(w, 1, a, CloseAsDuplicate(actor, 2, a.version, now)).0;
    var w2 := Commit(w1, 2, b, CloseAsDuplicate(actor, 1, b.version, now)).0;
    assert forall id <- w.issues :: Hop(w.issues, id, 1).None?;
    assert forall id <- w.issues :: EndsWithin(w.issues, id, 1);
    assert Parent(w2.issues, 1) == Some(2) && Parent(w2.issues, 2) == Some(1);
    assert Hop(w2.issues, 2, 1) == Some(1);
    assert Hop(w2.issues, 1, 2) == Some(1);
    if Acyclic(w2.issues) {
      AcyclicMeansNoCycle(w2.issues, 1, 2);
    }
  }

  // ---- Chains are not always one hop deep ----------------------------------

  /** Merging an issue that has duplicates of its own leaves theirs two hops from
      the new canonical: pointers are not always one hop deep. */
  lemma ChainsReachDepthTwo(w: World, actor: Staff, a: IssueId, b: IssueId, c: IssueId, now: Time)
    requires Forest(w.issues) && a != c
    requires Parent(w.issues, a) == Some(b) && a in w.issues
    requires b in w.issues && c in w.issues && MergeTarget(w, b, c, w.issues[b].version) == Ok(c)
    ensures Hop(Merge(w, actor, b, c, w.issues[b].version, now).0.issues, a, 2) == Some(c)
  {
  }

  /** Every pointer leads straight to an issue that is not itself a duplicate. */
  ghost predicate Flat(issues: Issues) { forall id :: Hop(issues, id, 2).None? }

  lemma TwoHops(issues: Issues, id: IssueId)
    ensures Hop(issues, id, 2) == match Parent(issues, id) case None => None case Some(next) => Parent(issues, next)
  {
    match Parent(issues, id)
    case None =>
    case Some(next) => assert Hop(issues, next, 1) == Parent(issues, next);
  }

  lemma DroppingKeepsFlat(before: Issues, after: Issues)
    requires PointersOnlyDrop(before, after) && Flat(before)
    ensures Flat(after)
  {
    forall id ensures Hop(after, id, 2).None? {
      TwoHops(after, id);
      TwoHops(before, id);
    }
  }

  /** A merge leaves every pointer one hop deep exactly when the issue merged has no
      duplicates of its own: what flattening looks at is the other end. */
  lemma MergeStaysFlatIff(w: World, actor: Staff, id: IssueId, canonicalId: IssueId, seen: nat, now: Time)
    requires Forest(w.issues) && Flat(w.issues) && MergeTarget(w, id, canonicalId, seen).Ok?
    ensures Flat(Merge(w, actor, id, canonicalId, seen, now).0.issues) <==> forall d :: Parent(w.issues, d) != Some(id)
  {
    var root := MergeTarget(w, id, canonicalId, seen).value;
    var after := Merge(w, actor, id, canonicalId, seen, now).0.issues;
    MergeJoinsRoots(w, id, canonicalId, seen);
    MergePoints(w, actor, id, canonicalId, seen, now);
    hide Merge, MergeTarget, Forest;
    assert forall x :: Parent(after, x) == if x == id then Some(root) else Parent(w.issues, x);
    forall x ensures Hop(after, x, 2).None? <==> Parent(w.issues, x) != Some(id) {
      TwoHops(after, x);
      TwoHops(w.issues, x);
    }
    hide Hop, Parent;
  }

  // ---- Direct and other duplicates -----------------------------------------

  /** The issues merged into `id` itself. */
  ghost predicate DirectDuplicate(issues: Issues, d: IssueId, id: IssueId) {
    Parent(issues, d) == Some(id)
  }

  /** Every issue merged into `id`, through however many merges. */
  ghost predicate TransitiveDuplicate(issues: Issues, d: IssueId, id: IssueId) {
    exists n: nat :: n > 0 && Hop(issues, d, n) == Some(id)
  }

  /** The issues merged into `id` directly are all of its duplicates exactly when none
      of them has duplicates of its own. */
  lemma AllAreDirectIff(issues: Issues, id: IssueId)
    requires Acyclic(issues)
    ensures (forall d :: TransitiveDuplicate(issues, d, id) ==> DirectDuplicate(issues, d, id))
       <==> (forall d, e :: DirectDuplicate(issues, e, id) ==> !DirectDuplicate(issues, d, e))
  {
    if d, e :| DirectDuplicate(issues, e, id) && DirectDuplicate(issues, d, e) {
      assert Hop(issues, e, 1) == Some(id);
      assert Hop(issues, d, 2) == Some(id);
      assert TransitiveDuplicate(issues, d, id);
      if DirectDuplicate(issues, d, id) {
        AcyclicMeansNoCycle(issues, id, 1);
      }
    } else {
      forall d | TransitiveDuplicate(issues, d, id) ensures DirectDuplicate(issues, d, id) {
        var n: nat :| n > 0 && Hop(issues, d, n) == Some(id);
        ChainCollapses(issues, d, id, n);
      }
    }
  }

  lemma {:induction false} ChainCollapses(issues: Issues, d: IssueId, id: IssueId, n: nat)
    requires n > 0 && Hop(issues, d, n) == Some(id)
    requires forall x, e :: DirectDuplicate(issues, e, id) ==> !DirectDuplicate(issues, x, e)
    ensures DirectDuplicate(issues, d, id)
    decreases n
  {
    var next := Parent(issues, d).value;
    if n == 1 {
      assert Hop(issues, next, 0) == Some(next);
    } else {
      ChainCollapses(issues, next, id, n - 1);
      assert DirectDuplicate(issues, d, next);
    }
  }
}
