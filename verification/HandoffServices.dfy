/** The handlers of the attachment hand-off as they run: pushing an issue's
    cleared files, scanning them after intake, and re-scanning what was stranded.
    A push or a scan is a call into another system, so its outcome is given. */
module HandoffServices {
  import opened Basics
  import opened Handoff

  const MAX_ATTEMPTS := 3
  const PENDING_GRACE_MS := 15 * 60 * 1000
  const BATCH_SIZE := 25

  /** Whether one of the attempts a push gets succeeds. */
  predicate Delivered(attempt: nat -> bool) {
    exists k {:trigger attempt(k)} | 1 <= k <= MAX_ATTEMPTS :: attempt(k)
  }

  /** Tries until the first success, and gives up after the last attempt. */
  method WithRetry(attempt: nat -> bool) returns (ok: bool, made: nat)
    ensures 1 <= made <= 3 && ok == attempt(made) == Delivered(attempt)
    ensures forall k :: 1 <= k < made ==> !attempt(k)
    ensures !ok ==> made == 3
  {
    made := 1;
    ok := attempt(made);
    while !ok && made < MAX_ATTEMPTS
      invariant 1 <= made <= MAX_ATTEMPTS && ok == attempt(made)
      invariant forall k :: 1 <= k < made ==> !attempt(k)
    {
      made := made + 1;
      ok := attempt(made);
    }
  }

  predicate ToPush(f: File) { Servable(f.scan) && !f.synced }

  function Elements(ids: seq<FileId>): set<FileId> { set f | f in ids }

  /** The files whose push lands within the attempts it gets. */
  function Landing(ids: seq<FileId>, jira: FileId -> nat -> bool): set<FileId> {
    set f | f in ids && Delivered(jira(f))
  }

  /** The hand-off's tables. */
  datatype Tables = Tables(files: map<FileId, File>, pushes: map<FileId, nat>, failed: set<FileId>)

  /** The tables once those of `done` that needed a push had it: a push that
      landed is counted and keeps its mark, one that did not is remembered. */
  function PushAll(t: Tables, done: set<FileId>, landing: set<FileId>): Tables {
    Tables(
      map f | f in t.files ::
        if f in done && f in landing && ToPush(t.files[f]) then t.files[f].(synced := true) else t.files[f],
      map f | f in t.pushes ::
        if f in done && f in landing && f in t.files && ToPush(t.files[f]) then t.pushes[f] + 1 else t.pushes[f],
      t.failed + set f | f in done && f !in landing && f in t.files && ToPush(t.files[f]))
  }

  /** One file that gets its push, if it needs one. */
  function PushOne(t: Tables, f: FileId, lands: bool): Tables
    requires f in t.files && f in t.pushes
  {
    if !ToPush(t.files[f]) then t
    else if lands then t.(files := t.files[f := t.files[f].(synced := true)], pushes := t.pushes[f := t.pushes[f] + 1])
    else t.(failed := t.failed + {f})
  }

  /** The same when the file was listed as `seen`: whether to push goes by what was
      listed, the claim by what is stored. */
  function PushListed(t: Tables, f: FileId, seen: File, lands: bool): Tables
    requires f in t.files ==> f in t.pushes
  {
    if !ToPush(seen) || f !in t.files || t.files[f].synced then t
    else if lands then t.(files := t.files[f := t.files[f].(synced := true)], pushes := t.pushes[f := t.pushes[f] + 1])
    else t.(failed := t.failed + {f})
  }

  /** A pass pushes the cleared, unmarked files it gets to and no others: those whose
      push lands are counted once more and keep the mark, the others are remembered as
      failed and left without it. */
  lemma PushAllDoes(t: Tables, done: set<FileId>, landing: set<FileId>, f: FileId)
    requires f in t.files && f in t.pushes
    ensures var now := PushAll(t, done, landing);
            var due := f in done && t.files[f].scan in {Clean, Skipped} && !t.files[f].synced;
            && f in now.files && f in now.pushes
            && now.files[f] == File(t.files[f].scan, t.files[f].synced || (due && f in landing))
            && now.pushes[f] == t.pushes[f] + (if due && f in landing then 1 else 0)
            && (f in now.failed <==> f in t.failed || (due && f !in landing))
  {
  }

  /** One file of a pass, listed as `seen` some time ago: it is pushed exactly when it
      was listed as cleared and unmarked, and is there and still unmarked. */
  lemma PushListedDoes(t: Tables, f: FileId, seen: File, lands: bool)
    requires f in t.files ==> f in t.pushes
    ensures var now := PushListed(t, f, seen, lands);
            var due := seen.scan in {Clean, Skipped} && !seen.synced && f in t.files && !t.files[f].synced;
            && now.files == (if due && lands then t.files[f := File(t.files[f].scan, true)] else t.files)
            && now.pushes == (if due && lands then t.pushes[f := t.pushes[f] + 1] else t.pushes)
            && now.failed == (if due && !lands then t.failed + {f} else t.failed)
  {
  }

  /** Pushing a set of files is pushing them one after another, in any order. */
  lemma OneMore(t: Tables, done: set<FileId>, landing: set<FileId>, f: FileId)
    requires f in t.files && f in t.pushes && f !in done
    ensures var now := PushAll(t, done, landing);
            && f in now.files && f in now.pushes && now.files[f] == t.files[f]
            && PushAll(t, done + {f}, landing) == PushOne(now, f, f in landing)
  {
  }

  lemma NoneYet(t: Tables, landing: set<FileId>)
    ensures PushAll(t, {}, landing) == t
  {
  }

  class Attachments {
    var files: map<FileId, File>
    var pushes: map<FileId, nat>
    var failed: set<FileId>

    ghost function Now(): Tables
      reads this
    {
      Tables(files, pushes, failed)
    }

    constructor (ids: set<FileId>)
      ensures Now() == Tables(Start(ids).files, Start(ids).pushes, {})
    {
      files := map f | f in ids :: File(Pending, false);
      pushes := map f | f in ids :: 0;
      failed := {};
    }

    /** `update … where jira_synced = false`: did it find a row? */
    method ClaimFile(f: FileId) returns (affected: bool)
      modifies `files
      ensures affected == (f in old(files) && !old(files)[f].synced)
      ensures files == if affected then old(files)[f := old(files)[f].(synced := true)] else old(files)
    {
      affected := f in files && !files[f].synced;
      if affected {
        files := files[f := files[f].(synced := true)];
      }
    }

    /** One pass of the loop over the listed files, `seen` being the row as it was
        listed: claim, push, release on failure. A file that has been claimed or
        deleted since is left alone; one as listed gets the push it needs. */
    method PushFile(f: FileId, seen: File, attempt: nat -> bool)
      requires f in files ==> f in pushes
      modifies this
      ensures Now() == PushListed(old(Now()), f, seen, Delivered(attempt))
      ensures f !in old(files) || old(files)[f].synced ==> Now() == old(Now())
      ensures f in old(files) && seen == old(files)[f] ==> Now() == PushOne(old(Now()), f, Delivered(attempt))
    {
      hide Delivered;
      ghost var was := files;
      if !seen.synced && Servable(seen.scan) {
        var claimed := ClaimFile(f);
        if claimed {
          var ok, _ := WithRetry(attempt);
          if ok {
            pushes := pushes[f := pushes[f] + 1];
          } else {
            files := files[f := files[f].(synced := false)];
            failed := failed + {f};
            assert files == was;
          }
        }
      }
    }

    /** Pushes what needs it, in listing order. */
    method SyncAttachments(listed: seq<FileId>, jira: FileId -> nat -> bool)
      requires Distinct(listed) && Elements(listed) == files.Keys == pushes.Keys
      modifies this
      ensures Now() == PushAll(old(Now()), Elements(listed), Landing(listed, jira))
    {
      ghost var start, landing := Now(), Landing(listed, jira);
      var rows := files;
      assert Elements(listed[..0]) == {};
      NoneYet(start, landing);
      hide Delivered, PushAll, Elements, Landing;
      for i := 0 to |listed|
        invariant rows == start.files && files.Keys == rows.Keys && pushes.Keys == rows.Keys
        invariant Now() == PushAll(start, Elements(listed[..i]), landing)
      {
        var f := listed[i];
        NextElement(listed, i);
        LandingMember(listed, i, jira);
        OneMore(start, Elements(listed[..i]), landing, f);
        PushFile(f, rows[f], jira(f));
      }
      assert listed[..|listed|] == listed;
    }
  }

  lemma LandingMember(ids: seq<FileId>, i: nat, jira: FileId -> nat -> bool)
    requires i < |ids|
    ensures ids[i] in Landing(ids, jira) <==> Delivered(jira(ids[i]))
  {
  }

  lemma NextElement(ids: seq<FileId>, i: nat)
    requires i < |ids| && Distinct(ids)
    ensures ids[i] !in Elements(ids[..i]) && Elements(ids[..i + 1]) == Elements(ids[..i]) + {ids[i]}
    ensures ids[i] in Elements(ids)
  {
  }

  // ---- Left alone, a handler's loop is a stretch of the protocol -------------

  function After(s: State, actions: seq<Action>): Option<State>
    decreases |actions|
  {
    if actions == [] then Some(s)
    else if Enabled(s, actions[0]) then After(Step(s, actions[0]), actions[1..]) else None
  }

  function PushAction(w: nat, f: FileId, landing: set<FileId>): Action {
    if f in landing then PushSucceeds(w) else PushFails(w)
  }

  function WorkerActions(w: nat, todo: seq<FileId>, landing: set<FileId>): seq<Action>
    decreases |todo|
  {
    if todo == [] then [Finish(w)]
    else [Claim(w), PushAction(w, todo[0], landing)] + WorkerActions(w, todo[1..], landing)
  }

  function TablesOf(s: State): Tables { Tables(s.files, s.pushes, s.failed) }

  function WithTables(s: State, t: Tables): State { s.(files := t.files, pushes := t.pushes, failed := t.failed) }

  lemma ClaimStep(s: State, w: nat, todo: seq<FileId>)
    requires w in s.workers && s.workers[w] == Syncing(todo) && todo != [] && Eligible(s, todo[0])
    ensures Enabled(s, Claim(w))
    ensures var f := todo[0];
            Step(s, Claim(w)) ==
                WithWorker(s.(files := s.files[f := s.files[f].(synced := true)]), w, Pushing(f, todo[1..]))
  {
  }

  lemma PushStep(s: State, w: nat, f: FileId, rest: seq<FileId>, landing: set<FileId>)
    requires w in s.workers && s.workers[w] == Pushing(f, rest) && f in s.files && f in s.pushes
    ensures Enabled(s, PushAction(w, f, landing))
    ensures Step(s, PushAction(w, f, landing)) == WithWorker(
              if f in landing then s.(pushes := s.pushes[f := s.pushes[f] + 1])
              else s.(files := s.files[f := s.files[f].(synced := false)], failed := s.failed + {f}), w, Syncing(rest))
  {
  }

  /** One file claimed and pushed, or claimed and released. */
  lemma ClaimAndPush(s: State, w: nat, todo: seq<FileId>, landing: set<FileId>)
    requires w in s.workers && s.workers[w] == Syncing(todo) && todo != [] && s.pushes.Keys == s.files.Keys
    requires Eligible(s, todo[0])
    ensures var f, push := todo[0], PushAction(w, todo[0], landing);
            && Enabled(s, Claim(w)) && Enabled(Step(s, Claim(w)), push)
            && Step(Step(s, Claim(w)), push)
               == WithWorker(WithTables(s, PushOne(TablesOf(s), f, f in landing)), w, Syncing(todo[1..]))
  {
    hide Step, Possible, Exclusive;
    var f, rest := todo[0], todo[1..];
    ClaimStep(s, w, todo);
    var claimed := Step(s, Claim(w));
    PushStep(claimed, w, f, rest, landing);
    assert claimed.workers[w := Syncing(rest)] == s.workers[w := Syncing(rest)];
    assert s.files[f := s.files[f].(synced := true)][f := s.files[f]] == s.files[f := s.files[f]] == s.files;
  }

  /** A worker that nobody interrupts goes through the claims and pushes of the
      protocol, every one of them enabled in turn, and ends with exactly the
      tables `SyncAttachments` leaves. */
  lemma {:induction false} UninterruptedSync(s: State, w: nat, todo: seq<FileId>, landing: set<FileId>)
    requires w in s.workers && s.workers[w] == Syncing(todo) && Distinct(todo) && s.pushes.Keys == s.files.Keys
    requires forall f <- todo :: Eligible(s, f)
    ensures After(s, WorkerActions(w, todo, landing))
            == Some(Without(WithTables(s, PushAll(TablesOf(s), Elements(todo), landing)), w))
    decreases |todo|
  {
    hide Step, Possible, Exclusive, PushAll, Elements, After, PushOne;
    if todo == [] {
      EmptySync(s, w, landing);
    } else {
      var f, rest := todo[0], todo[1..];
      ClaimAndPush(s, w, todo, landing);
      var one := WithTables(s, PushOne(TablesOf(s), f, f in landing));
      var t := WithWorker(one, w, Syncing(rest));
      RestEligible(s, w, todo, landing);
      UninterruptedSync(t, w, rest, landing);
      AfterTwo(s, Claim(w), PushAction(w, f, landing), WorkerActions(w, rest, landing));
      FirstThenRest(TablesOf(s), f, Elements(rest), landing);
      assert t.workers - {w} == s.workers - {w};
    }
  }

  lemma FirstThenRest(t: Tables, f: FileId, rest: set<FileId>, landing: set<FileId>)
    requires f in t.files && f in t.pushes && f !in rest
    ensures PushAll(PushOne(t, f, f in landing), rest, landing) == PushAll(t, {f} + rest, landing)
  {
    var two, all := PushAll(PushOne(t, f, f in landing), rest, landing), PushAll(t, {f} + rest, landing);
    assert two.files == all.files;
    assert two.pushes == all.pushes;
    assert two.failed == all.failed;
  }

  lemma AfterTwo(s: State, a: Action, b: Action, rest: seq<Action>)
    requires Enabled(s, a) && Enabled(Step(s, a), b)
    ensures After(s, [a, b] + rest) == After(Step(Step(s, a), b), rest)
  {
  }

  lemma EmptySync(s: State, w: nat, landing: set<FileId>)
    requires w in s.workers && s.workers[w] == Syncing([])
    ensures After(s, [Finish(w)]) == Some(Without(WithTables(s, PushAll(TablesOf(s), Elements([]), landing)), w))
  {
    assert Elements([]) == {};
    NoneYet(TablesOf(s), landing);
    hide PushAll;
    assert [Finish(w)][1..] == [];
    assert After(Step(s, Finish(w)), []) == Some(Without(s, w));
  }

  lemma RestEligible(s: State, w: nat, todo: seq<FileId>, landing: set<FileId>)
    requires Distinct(todo) && todo != [] && s.pushes.Keys == s.files.Keys
    requires forall f <- todo :: Eligible(s, f)
    ensures todo[0] in s.files && todo[0] in s.pushes
    ensures var t := WithWorker(WithTables(s, PushOne(TablesOf(s), todo[0], todo[0] in landing)), w,
                                Syncing(todo[1..]));
            t.pushes.Keys == t.files.Keys && forall f <- todo[1..] :: Eligible(t, f)
    ensures Distinct(todo[1..]) && todo[0] !in Elements(todo[1..]) && {todo[0]} + Elements(todo[1..]) == Elements(todo)
  {
    assert Eligible(s, todo[0]);
    assert forall k :: 0 <= k < |todo| - 1 ==> todo[1..][k] == todo[k + 1];
    assert forall f <- todo[1..] :: f in todo && f != todo[0];
    assert forall g :: g in todo <==> g == todo[0] || g in todo[1..] by {
      assert todo == [todo[0]] + todo[1..];
    }
  }

  // ---- Scanning and re-scanning ---------------------------------------------

  datatype Upload = Upload(issue: nat, scan: ScanStatus, createdAt: int)

  /** The verdict a scan leaves; a scanner that threw leaves the file pending. */
  function Verdict(scan: Option<ScanStatus>): ScanStatus {
    match scan
    case Some(v) => v
    case None => Pending
  }

  function Rescanned(rows: map<FileId, Upload>, batch: seq<FileId>,
                     scanner: FileId -> Option<ScanStatus>): map<FileId, Upload>
  {
    map f | f in rows :: if f in batch then rows[f].(scan := Verdict(scanner(f))) else rows[f]
  }

  predicate Stuck(rows: map<FileId, Upload>, now: int, f: FileId) {
    f in rows && rows[f].scan == Pending && rows[f].createdAt < now - PENDING_GRACE_MS
  }

  /** An answer to the sweep's query: the newest stuck files, at most a batch. */
  ghost predicate Batch(rows: map<FileId, Upload>, now: int, batch: seq<FileId>) {
    && Distinct(batch) && |batch| <= BATCH_SIZE && (forall f <- batch :: Stuck(rows, now, f))
    && (forall f :: Stuck(rows, now, f) && f !in batch ==>
          |batch| == BATCH_SIZE && forall g <- batch :: g in rows ==> rows[f].createdAt <= rows[g].createdAt)
  }

  function Cleared(batch: seq<FileId>, scanner: FileId -> Option<ScanStatus>): set<FileId> {
    set f | f in batch && Servable(Verdict(scanner(f)))
  }

  class ScanService {
    var rows: map<FileId, Upload>
    /** Issues announced as having freshly scanned files, oldest first. */
    var announced: seq<nat>

    constructor (rows: map<FileId, Upload>)
      ensures this.rows == rows && announced == []
    {
      this.rows := rows;
      announced := [];
    }

    method ScanAndPersist(f: FileId, scan: Option<ScanStatus>) returns (status: ScanStatus)
      requires f in rows
      modifies `rows
      ensures status == Verdict(scan) && rows == old(rows)[f := old(rows)[f].(scan := status)]
    {
      match scan {
        case Some(v) => status := v;
        case None => status := Pending;
      }
      rows := rows[f := rows[f].(scan := status)];
    }

    /** After intake: every pending file of the issue is scanned, and the end is
        announced whatever the verdicts, unless there was nothing to scan. */
    method OnIssueCreated(issue: nat, pending: seq<FileId>, scanner: FileId -> Option<ScanStatus>)
      requires Distinct(pending)
      requires forall f :: f in pending <==> f in rows && rows[f].issue == issue && rows[f].scan == Pending
      modifies this
      ensures rows == Rescanned(old(rows), pending, scanner)
      ensures announced == old(announced) + if pending == [] then [] else [issue]
    {
      ghost var rows0 := rows;
      if |pending| == 0 {
        assert rows == Rescanned(rows0, pending, scanner);
        return;
      }
      assert pending[0] in pending;
      for i := 0 to |pending|
        invariant rows == Rescanned(rows0, pending[..i], scanner) && announced == old(announced)
      {
        assert pending[i] in pending;
        assert forall g :: g in pending[..i + 1] <==> g in pending[..i] || g == pending[i];
        var _ := ScanAndPersist(pending[i], scanner(pending[i]));
      }
      assert pending[..|pending|] == pending;
      announced := announced + [issue];
    }

    /** The retry sweep. Returns how many files were rescued, and announces each
        issue that gained a servable file once, and no other. */
    method Sweep(enabled: bool, now: int, batch: seq<FileId>, scanner: FileId -> Option<ScanStatus>)
      returns (rescued: nat)
      requires Batch(rows, now, batch)
      modifies this
      ensures !enabled ==> rescued == 0 && rows == old(rows) && announced == old(announced)
      ensures enabled ==> rows == Rescanned(old(rows), batch, scanner) && rescued == |Cleared(batch, scanner)|
      ensures enabled ==> |announced| >= |old(announced)| && announced[..|old(announced)|] == old(announced)
      ensures enabled ==> Told(old(rows), announced[|old(announced)|..], Cleared(batch, scanner))
    {
      rescued := 0;
      if !enabled { return; }
      ghost var rows0 := rows;
      var rescanned: seq<nat> := [];
      assert Progress(rows0, batch[..0], scanner, rows, 0, []) by {
        assert Rescanned(rows0, batch[..0], scanner) == rows0 && Cleared(batch[..0], scanner) == {};
      }
      for i := 0 to |batch|
        invariant announced == old(announced)
        invariant Progress(rows0, batch[..i], scanner, rows, rescued, rescanned)
      {
        var f := batch[i];
        assert Stuck(rows0, now, f);
        hide Batch, Stuck, Progress;
        KeepProgress(rows0, batch, i, scanner, rows, rescued, rescanned);
        var status := ScanAndPersist(f, scanner(f));
        if Servable(status) {
          if rows[f].issue !in rescanned {
            rescanned := rescanned + [rows[f].issue];
          }
          rescued := rescued + 1;
        }
      }
      assert batch[..|batch|] == batch;
      announced := announced + rescanned;
    }
  }

  ghost predicate Gained(rows: map<FileId, Upload>, cleared: set<FileId>, issue: nat) {
    exists f :: f in cleared && f in rows && rows[f].issue == issue
  }

  /** Exactly the issues of these files, each once. */
  ghost predicate Told(rows: map<FileId, Upload>, issues: seq<nat>, cleared: set<FileId>) {
    && (forall j, k :: 0 <= j < k < |issues| ==> issues[j] != issues[k])
    && forall issue :: issue in issues <==> Gained(rows, cleared, issue)
  }

  /** Where the sweep is once `done` is re-scanned. */
  ghost predicate Progress(rows0: map<FileId, Upload>, done: seq<FileId>, scanner: FileId -> Option<ScanStatus>,
                           rows: map<FileId, Upload>, rescued: nat, rescanned: seq<nat>) {
    && rows == Rescanned(rows0, done, scanner)
    && rescued == |Cleared(done, scanner)|
    && Told(rows0, rescanned, Cleared(done, scanner))
  }

  lemma KeepProgress(rows0: map<FileId, Upload>, batch: seq<FileId>, i: nat, scanner: FileId -> Option<ScanStatus>,
                     rows: map<FileId, Upload>, rescued: nat, rescanned: seq<nat>)
    requires i < |batch| && Distinct(batch) && batch[i] in rows0
    requires Progress(rows0, batch[..i], scanner, rows, rescued, rescanned)
    ensures var f := batch[i];
            && f in rows && rows[f] == rows0[f]
            && var now := rows[f := rows[f].(scan := Verdict(scanner(f)))];
            var issue := rows0[f].issue;
            if Servable(Verdict(scanner(f))) then
              Progress(rows0, batch[..i + 1], scanner, now, rescued + 1,
                       if issue in rescanned then rescanned else rescanned + [issue])
            else Progress(rows0, batch[..i + 1], scanner, now, rescued, rescanned)
  {
    OneMoreScanned(rows0, batch, i, scanner);
    OneMoreTold(rows0, rescanned, Cleared(batch[..i], scanner), batch[i]);
    hide Rescanned, Cleared, Told;
  }

  lemma OneMoreScanned(rows: map<FileId, Upload>, batch: seq<FileId>, i: nat, scanner: FileId -> Option<ScanStatus>)
    requires i < |batch| && batch[i] in rows && Distinct(batch)
    ensures var before, f := Rescanned(rows, batch[..i], scanner), batch[i];
            && f in before && before[f] == rows[f]
            && Rescanned(rows, batch[..i + 1], scanner) == before[f := rows[f].(scan := Verdict(scanner(f)))]
    ensures batch[i] !in Cleared(batch[..i], scanner)
    ensures Cleared(batch[..i + 1], scanner)
            == Cleared(batch[..i], scanner) + if Servable(Verdict(scanner(batch[i]))) then {batch[i]} else {}
  {
  }

  lemma OneMoreTold(rows: map<FileId, Upload>, issues: seq<nat>, cleared: set<FileId>, f: FileId)
    requires f in rows && Told(rows, issues, cleared)
    ensures Told(rows, if rows[f].issue in issues then issues else issues + [rows[f].issue], cleared + {f})
  {
  }

  /** The sweep never touches a file that has a verdict, and a file whose scan
      threw stays stuck, so a later sweep can take it up again. */
  lemma SweepOnlyResolves(rows: map<FileId, Upload>, now: int, later: int, batch: seq<FileId>,
                          scanner: FileId -> Option<ScanStatus>, f: FileId)
    requires Batch(rows, now, batch) && f in rows && now <= later
    ensures rows[f].scan != Pending ==> Rescanned(rows, batch, scanner)[f] == rows[f]
    ensures Stuck(rows, now, f) ==>
              (Stuck(Rescanned(rows, batch, scanner), later, f)
               <==> f !in batch || scanner(f) == None || scanner(f) == Some(Pending))
  {
  }

  // ---- What the sweep gets to --------------------------------------------------

  /** Pending, and intake had a quarter of an hour for it. */
  predicate Stranded(rows: map<FileId, Upload>, now: int, f: FileId) {
    f in rows && rows[f].scan == Pending && now - rows[f].createdAt > 900_000
  }

  lemma {:induction false} DistinctSize(ids: seq<FileId>)
    requires Distinct(ids)
    ensures |Elements(ids)| == |ids|
    decreases |ids|
  {
    if ids != [] {
      var front, last := ids[..|ids| - 1], ids[|ids| - 1];
      DistinctSize(front);
      assert Elements(ids) == Elements(front) + {last};
    }
  }

  lemma SubsetSize(a: set<FileId>, b: set<FileId>)
    requires a <= b
    ensures |a| <= |b|
  {
    assert b == a + (b - a);
  }

  /** The sweep takes a stranded file up only if fewer than twenty-five stranded files
      are newer, and does so if fewer than twenty-five others are as new. What is left
      over is not picked up by a later sweep as long as the newer ones stay stranded. */
  lemma TakenUpIfFewAreNewer(rows: map<FileId, Upload>, now: int, batch: seq<FileId>, f: FileId)
    requires Batch(rows, now, batch) && Stranded(rows, now, f)
    ensures var newer := set g <- rows | Stranded(rows, now, g) && rows[g].createdAt > rows[f].createdAt;
            f in batch ==> |newer| < 25
    ensures var asNew := set g <- rows | Stranded(rows, now, g) && g != f && rows[g].createdAt >= rows[f].createdAt;
            |asNew| < 25 ==> f in batch
  {
    assert forall g :: Stuck(rows, now, g) <==> Stranded(rows, now, g);
    DistinctSize(batch);
    var taken := Elements(batch);
    if f in batch {
      var newer := set g <- rows | Stranded(rows, now, g) && rows[g].createdAt > rows[f].createdAt;
      assert newer <= taken - {f};
      SubsetSize(newer, taken - {f});
    } else {
      var asNew := set g <- rows | Stranded(rows, now, g) && g != f && rows[g].createdAt >= rows[f].createdAt;
      assert taken <= asNew;
      SubsetSize(taken, asNew);
    }
  }
}
