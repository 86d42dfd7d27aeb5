/** Handing an issue's attachments over to Jira while they are being scanned.
    The create path writes the Jira key and then lists the files; the scan path
    writes verdicts and then reads the key; each file is claimed by a
    compare-and-set before it is pushed. One issue, any number of handlers. */
module Handoff {
  import opened Basics

  type FileId = nat

  datatype ScanStatus = Pending | Clean | Infected | Skipped

  predicate Servable(s: ScanStatus) { s == Clean || s == Skipped }

  datatype File = File(scan: ScanStatus, synced: bool)

  /** The Jira issue is being created, exists, or will not exist. */
  datatype Creation = Underway | Done | Failed

  /** A handler of the hand-off: it has still to read the key, has still to list
      the files, is working through the files its listing found to push, or holds
      the claim of one of them. */
  datatype Worker =
    | Handling
    | Keyed
    | Syncing(todo: seq<FileId>)
    | Pushing(file: FileId, rest: seq<FileId>)

  /** A scan pass: the files it has loaded and not scanned yet. The intake pass
      always announces its end, a retry pass only if it cleared a file. */
  datatype ScanPass = ScanPass(todo: seq<FileId>, retry: bool, cleared: bool)

  datatype State = State(
    files: map<FileId, File>, pushes: map<FileId, nat>, failed: set<FileId>,
    keyWritten: bool, creation: Creation,
    workers: map<nat, Worker>, passes: map<nat, ScanPass>, announcements: nat)

  datatype Action =
    | CreateSucceeds(worker: nat)
    | CreateFails
    | StartPass(pass: nat, ids: seq<FileId>, retry: bool)
    | ScanNext(pass: nat, verdict: ScanStatus)
    | FinishPass(pass: nat)
    | Deliver(worker: nat)
    | ReadKey(worker: nat)
    | List(worker: nat, order: seq<FileId>)
    | Claim(worker: nat)
    | PushSucceeds(worker: nat)
    | PushFails(worker: nat)
    | Finish(worker: nat)

  predicate Distinct(ids: seq<FileId>) {
    forall j, k :: 0 <= j < k < |ids| ==> ids[j] != ids[k]
  }

  predicate Eligible(s: State, f: FileId) {
    f in s.files && Servable(s.files[f].scan) && !s.files[f].synced
  }

  function Without(s: State, w: nat): State { s.(workers := s.workers - {w}) }

  function WithWorker(s: State, w: nat, worker: Worker): State { s.(workers := s.workers[w := worker]) }

  /** When an action can happen. */
  predicate Possible(s: State, a: Action) {
    match a
    case CreateSucceeds(w) => s.creation == Underway && w !in s.workers
    case CreateFails => s.creation == Underway
    case StartPass(p, ids, _) =>
      && p !in s.passes && ids != [] && Distinct(ids)
      && (forall f <- ids :: f in s.files && s.files[f].scan == Pending)
    case ScanNext(p, _) => p in s.passes && s.passes[p].todo != []
    case FinishPass(p) => p in s.passes && s.passes[p].todo == []
    case Deliver(w) => s.announcements > 0 && w !in s.workers
    case ReadKey(w) => w in s.workers && s.workers[w].Handling?
    case List(w, order) =>
      && w in s.workers && s.workers[w].Keyed? && Distinct(order)
      && (forall f <- order :: Eligible(s, f)) && (forall f <- s.files :: Eligible(s, f) ==> f in order)
    case Claim(w) => w in s.workers && s.workers[w].Syncing? && s.workers[w].todo != []
    case PushSucceeds(w) =>
      w in s.workers && s.workers[w].Pushing? && s.workers[w].file in s.files && s.workers[w].file in s.pushes
    case PushFails(w) => w in s.workers && s.workers[w].Pushing? && s.workers[w].file in s.files
    case Finish(w) => w in s.workers && s.workers[w].Syncing? && s.workers[w].todo == []
  }

  /** A pass that starts takes up no file another pass holds. */
  predicate Exclusive(s: State, a: Action) {
    a.StartPass? ==> forall q <- s.passes :: forall f <- a.ids :: f !in s.passes[q].todo
  }

  /** The actions of the protocol, in which two scan passes never hold the same file. */
  predicate Enabled(s: State, a: Action) { Possible(s, a) && Exclusive(s, a) }

  function Step(s: State, a: Action): State
    requires Possible(s, a)
  {
    match a
    // The key is written, and the same handler then goes on to list the files.
    case CreateSucceeds(w) => WithWorker(s.(keyWritten := true, creation := Done), w, Keyed)
    case CreateFails => s.(creation := Failed)
    case StartPass(p, ids, retry) => s.(passes := s.passes[p := ScanPass(ids, retry, false)])
    // The row is saved whole from the copy loaded when the pass started, whose
    // push mark was unset.
    case ScanNext(p, verdict) =>
      var pass := s.passes[p];
      var f := pass.todo[0];
      s.(files := s.files[f := File(verdict, false)],
         passes := s.passes[p := pass.(todo := pass.todo[1..], cleared := pass.cleared || Servable(verdict))])
    case FinishPass(p) =>
      var announces := !s.passes[p].retry || s.passes[p].cleared;
      s.(passes := s.passes - {p}, announcements := s.announcements + if announces then 1 else 0)
    case Deliver(w) => WithWorker(s.(announcements := s.announcements - 1), w, Handling)
    case ReadKey(w) => if s.keyWritten then WithWorker(s, w, Keyed) else Without(s, w)
    case List(w, order) => WithWorker(s, w, Syncing(order))
    case Claim(w) =>
      var f, rest := s.workers[w].todo[0], s.workers[w].todo[1..];
      if f in s.files && !s.files[f].synced then
        WithWorker(s.(files := s.files[f := s.files[f].(synced := true)]), w, Pushing(f, rest))
      else WithWorker(s, w, Syncing(rest))
    case PushSucceeds(w) =>
      var f := s.workers[w].file;
      WithWorker(s.(pushes := s.pushes[f := s.pushes[f] + 1]), w, Syncing(s.workers[w].rest))
    case PushFails(w) =>
      var f := s.workers[w].file;
      WithWorker(s.(files := s.files[f := s.files[f].(synced := false)], failed := s.failed + {f}),
                 w, Syncing(s.workers[w].rest))
    case Finish(w) => Without(s, w)
  }

  /** An issue just created with these files. */
  function Start(ids: set<FileId>): State {
    State(map f | f in ids :: File(Pending, false), map f | f in ids :: 0, {}, false, Underway, map[], map[], 0)
  }

  /** `run` is a run of the protocol from `Start(ids)`, first state to last. */
  ghost predicate IsRun(ids: set<FileId>, run: seq<State>) {
    && run != [] && run[0] == Start(ids)
    && forall k :: 0 <= k < |run| - 1 ==> Next(run[k], run[k + 1])
  }

  ghost predicate Next(s: State, t: State) {
    exists a :: Enabled(s, a) && t == Step(s, a)
  }

  // ---- Claims are exclusive ------------------------------------------------

  predicate Holds(s: State, w: nat, f: FileId) {
    w in s.workers && s.workers[w].Pushing? && s.workers[w].file == f
  }

  /** The files a worker may still claim. */
  function Ahead(w: Worker): seq<FileId> {
    match w
    case Syncing(todo) => todo
    case Pushing(_, rest) => rest
    case _ => []
  }

  /** Files loaded by a scan pass are unscanned and unclaimed, and in no other pass. */
  ghost predicate PassesApart(s: State) {
    && (forall p <- s.passes :: Distinct(s.passes[p].todo))
    && (forall p <- s.passes :: forall f <- s.passes[p].todo ::
          f in s.files && s.files[f] == File(Pending, false))
    && (forall p <- s.passes, q <- s.passes :: p != q ==>
          forall f <- s.passes[p].todo :: f !in s.passes[q].todo)
  }

  /** What a worker still has to claim is cleared, and so is what it holds, which
      is marked as pushed. */
  predicate MayWork(files: map<FileId, File>, w: Worker) {
    && (forall f <- Ahead(w) :: f in files && Servable(files[f].scan))
    && (w.Pushing? ==> w.file in files && Servable(files[w.file].scan) && files[w.file].synced)
  }

  /** Only cleared files carry a push mark, are held or are still to be claimed. */
  ghost predicate WorkersServable(s: State) {
    && (forall f <- s.files :: s.files[f].synced ==> Servable(s.files[f].scan))
    && (forall w <- s.workers :: MayWork(s.files, s.workers[w]))
  }

  ghost predicate ClaimsExclusive(s: State) {
    && s.pushes.Keys == s.files.Keys
    && (forall v, w, f :: Holds(s, v, f) && Holds(s, w, f) ==> v == w)
    && (forall w, f :: Holds(s, w, f) && f in s.pushes ==> s.pushes[f] == 0)
    && (forall f <- s.pushes :: s.pushes[f] <= 1)
    && (forall f <- s.files :: s.pushes[f] > 0 ==> s.files[f].synced)
    && (forall f <- s.files :: s.files[f].synced ==> s.pushes[f] == 1 || exists w :: Holds(s, w, f))
  }

  predicate WillAnnounce(p: ScanPass) { !p.retry || p.cleared }

  predicate AboutToList(w: Worker) { w.Handling? || w.Keyed? }

  /** Someone will still look at file `f`: the create path, an announcement made
      or certain to be made, or a handler that has yet to list or to reach it. */
  ghost predicate Covered(s: State, f: FileId) {
    || s.creation == Underway
    || s.announcements > 0
    || (exists p :: p in s.passes && WillAnnounce(s.passes[p]))
    || (exists w :: w in s.workers && AboutToList(s.workers[w]))
    || (exists w :: w in s.workers && f in Ahead(s.workers[w]))
  }

  ghost predicate NobodyForgotten(s: State) {
    s.creation != Failed ==> forall f :: Eligible(s, f) && f !in s.failed ==> Covered(s, f)
  }

  ghost predicate Inv(s: State) {
    && PassesApart(s) && WorkersServable(s) && ClaimsExclusive(s) && NobodyForgotten(s)
    && (s.creation == Done <==> s.keyWritten)
  }

  lemma StartInv(ids: set<FileId>)
    ensures Inv(Start(ids)) && Start(ids).files.Keys == ids
  {
  }
}
