/** The hand-off's claims and scans, step by step: one handler holds a file at a
    time, and only files that were cleared. */
module HandoffClaims {
  import opened Basics
  import opened Handoff

  lemma ScannedFile(s: State, p: nat)
    requires PassesApart(s) && WorkersServable(s) && p in s.passes && s.passes[p].todo != []
    ensures var f := s.passes[p].todo[0];
            && f in s.files && s.files[f] == File(Pending, false)
            && (forall g <- s.passes[p].todo[1..] :: g in s.passes[p].todo && g != f)
            && (forall w <- s.workers :: f !in Ahead(s.workers[w]) && !Holds(s, w, f))
  {
  }

  lemma ScanKeepsPasses(s: State, p: nat, verdict: ScanStatus)
    requires PassesApart(s) && WorkersServable(s) && Enabled(s, ScanNext(p, verdict))
    ensures PassesApart(Step(s, ScanNext(p, verdict)))
  {
    hide WorkersServable;
    var t := Step(s, ScanNext(p, verdict));
    var f := s.passes[p].todo[0];
    ScannedFile(s, p);
    forall q | q in t.passes
      ensures Distinct(t.passes[q].todo)
      ensures forall g <- t.passes[q].todo :: g in s.passes[q].todo && g != f
    {
      if q != p {
        assert t.passes[q] == s.passes[q];
        assert f in s.passes[p].todo;
      }
    }
  }

  /** The same claims, marks and counts on every file. */
  ghost predicate SameClaims(s: State, t: State) {
    && t.pushes == s.pushes && t.files.Keys == s.files.Keys
    && (forall f <- s.files :: t.files[f].synced == s.files[f].synced)
    && (forall w, f :: Holds(t, w, f) <==> Holds(s, w, f))
  }

  lemma SameClaimsKept(s: State, t: State)
    requires ClaimsExclusive(s) && SameClaims(s, t)
    ensures ClaimsExclusive(t)
  {
  }

  /** A worker that holds nothing takes an unmarked file. */
  lemma TakeKeepsClaims(s: State, t: State, w: nat, f: FileId)
    requires ClaimsExclusive(s) && f in s.files && !s.files[f].synced
    requires t.files.Keys == s.files.Keys && t.pushes == s.pushes && t.files[f].synced
    requires forall g <- s.files :: g != f ==> t.files[g].synced == s.files[g].synced
    requires forall v, g :: Holds(t, v, g) <==> Holds(s, v, g) || (v == w && g == f)
    requires forall v :: !Holds(s, v, f)
    requires forall g :: !Holds(s, w, g)
    ensures ClaimsExclusive(t)
  {
    assert s.pushes[f] == 0;
    forall g | g in t.files && t.files[g].synced
      ensures t.pushes[g] == 1 || exists v :: Holds(t, v, g)
    {
      if g == f {
        assert Holds(t, w, f);
      } else if s.pushes[g] != 1 {
        var v :| Holds(s, v, g);
        assert Holds(t, v, g);
      }
    }
  }

  lemma ClaimKeepsClaims(s: State, w: nat)
    requires WorkersServable(s) && ClaimsExclusive(s) && Enabled(s, Claim(w))
    ensures ClaimsExclusive(Step(s, Claim(w)))
  {
    hide ClaimsExclusive;
    var t := Step(s, Claim(w));
    var f := s.workers[w].todo[0];
    assert f in s.files by {
      assert MayWork(s.files, s.workers[w]);
      ClaimedMayWork(s.files, s.workers[w].todo);
    }
    if s.files[f].synced {
      SameClaimsKept(s, t);
    } else {
      forall v ensures !Holds(s, v, f) {
        assert Holds(s, v, f) ==> MayWork(s.files, s.workers[v]);
      }
      hide WorkersServable, MayWork;
      TakeKeepsClaims(s, t, w, f);
    }
  }

  /** A worker lets go of the file it holds; the file's mark and count change
      together or its claim is released. */
  lemma LetGoKeepsClaims(s: State, t: State, w: nat, f: FileId)
    requires ClaimsExclusive(s) && Holds(s, w, f) && f in s.files
    requires t.files.Keys == s.files.Keys && t.pushes.Keys == s.pushes.Keys
    requires forall g <- s.files :: g != f ==> t.files[g].synced == s.files[g].synced && t.pushes[g] == s.pushes[g]
    requires (t.files[f].synced && t.pushes[f] == 1) || (!t.files[f].synced && t.pushes[f] == 0)
    requires t.workers.Keys == s.workers.Keys && !t.workers[w].Pushing?
    requires forall v <- s.workers :: v != w ==> t.workers[v] == s.workers[v]
    ensures ClaimsExclusive(t)
  {
    assert forall v, g :: Holds(t, v, g) <==> Holds(s, v, g) && v != w;
    assert forall v :: !Holds(t, v, f);
    forall g | g in t.files && t.files[g].synced
      ensures t.pushes[g] == 1 || exists v :: Holds(t, v, g)
    {
      if g != f && s.pushes[g] != 1 {
        var v :| Holds(s, v, g);
        assert Holds(t, v, g);
      }
    }
  }

  lemma StartPassApart(s: State, p: nat, ids: seq<FileId>, retry: bool)
    requires PassesApart(s) && WorkersServable(s) && Enabled(s, StartPass(p, ids, retry))
    ensures PassesApart(Step(s, StartPass(p, ids, retry)))
  {
    var t := Step(s, StartPass(p, ids, retry));
    assert forall f <- ids :: f in s.files && s.files[f].scan == Pending && !s.files[f].synced;
    hide WorkersServable;
    assert forall q <- t.passes :: q != p ==> t.passes[q] == s.passes[q];
  }

  lemma ScanKeepsWorkers(s: State, p: nat, verdict: ScanStatus)
    requires PassesApart(s) && WorkersServable(s) && Enabled(s, ScanNext(p, verdict))
    ensures WorkersServable(Step(s, ScanNext(p, verdict)))
  {
    ScannedFile(s, p);
    hide PassesApart;
    assert forall w <- s.workers :: s.workers[w].Pushing? ==> Holds(s, w, s.workers[w].file);
  }

  lemma ClaimMissesPasses(s: State, w: nat)
    requires PassesApart(s) && WorkersServable(s) && Enabled(s, Claim(w))
    ensures PassesApart(Step(s, Claim(w)))
  {
    var f := s.workers[w].todo[0];
    assert f in s.files && Servable(s.files[f].scan) by {
      assert MayWork(s.files, s.workers[w]);
      ClaimedMayWork(s.files, s.workers[w].todo);
    }
    hide WorkersServable, MayWork;
    assert forall p <- s.passes :: f !in s.passes[p].todo;
  }

  /** The files kept their verdicts, and the one the worker holds its mark. */
  lemma StillMayWork(files: map<FileId, File>, now: map<FileId, File>, w: Worker)
    requires MayWork(files, w) && now.Keys == files.Keys
    requires forall f <- files :: now[f].scan == files[f].scan
    requires w.Pushing? ==> w.file in files && now[w.file].synced
    ensures MayWork(now, w)
  {
  }

  lemma ClaimedMayWork(files: map<FileId, File>, todo: seq<FileId>)
    requires MayWork(files, Syncing(todo)) && todo != []
    ensures todo[0] in files && Servable(files[todo[0]].scan)
    ensures MayWork(files, Syncing(todo[1..]))
    ensures MayWork(files[todo[0] := files[todo[0]].(synced := true)], Pushing(todo[0], todo[1..]))
  {
  }

  lemma ClaimKeepsWorkers(s: State, w: nat)
    requires WorkersServable(s) && Enabled(s, Claim(w))
    ensures WorkersServable(Step(s, Claim(w)))
  {
    assert MayWork(s.files, s.workers[w]);
    ClaimedMayWork(s.files, s.workers[w].todo);
    var t := Step(s, Claim(w));
    forall v | v in t.workers ensures MayWork(t.files, t.workers[v]) {
      if v != w {
        var worker := s.workers[v];
        assert MayWork(s.files, worker);
        StillMayWork(s.files, t.files, worker);
      }
    }
    hide MayWork;
  }

  lemma PushKeepsWorkers(s: State, w: nat)
    requires PassesApart(s) && WorkersServable(s) && Enabled(s, PushSucceeds(w))
    ensures WorkersServable(Step(s, PushSucceeds(w))) && PassesApart(Step(s, PushSucceeds(w)))
  {
  }

  /** A failed push releases a claim nobody else has. */
  lemma FailureKeepsWorkers(s: State, w: nat)
    requires WorkersServable(s) && ClaimsExclusive(s) && Enabled(s, PushFails(w))
    ensures WorkersServable(Step(s, PushFails(w)))
  {
    var f := s.workers[w].file;
    assert Holds(s, w, f);
    assert forall v :: v != w ==> !Holds(s, v, f);
    hide ClaimsExclusive;
    var t := Step(s, PushFails(w));
    forall v | v in t.workers ensures MayWork(t.files, t.workers[v]) {
      var worker := s.workers[v];
      assert MayWork(s.files, worker);
      if v == w {
        StillMayWork(s.files, t.files, Syncing(worker.rest));
      } else {
        assert !Holds(s, v, f);
        StillMayWork(s.files, t.files, worker);
      }
    }
    hide MayWork;
  }

  lemma FailureMissesPasses(s: State, w: nat)
    requires PassesApart(s) && WorkersServable(s) && Enabled(s, PushFails(w))
    ensures PassesApart(Step(s, PushFails(w)))
  {
  }
}
