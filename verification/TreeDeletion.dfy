/** Submitting a tree-delete job and waiting for it.

    A job removes its directory with everything below it, piece by piece. Its record disappears only
    once the whole tree is gone, and Core holds at most one record per directory. Polls and the POST
    can be lost or, for the POST, be lost after taking effect. */
module TreeDeletion {
  import opened Paths
  import opened S3Cluster
  import opened Text
  import opened Wrappers

  predicate Gone(fs: Files, f: FileId) {
    f !in fs.dirs.Values
  }

  // ---------------------------------------------------------------- what a job reports

  /** A job that reports this has stopped before its tree was gone. */
  predicate TerminalError(r: JobStatus) {
    r.lastError.Some? || r.aborted || EqualFold(TrimSpace(r.status), "aborted")
  }

  // ---------------------------------------------------------------- Core's side

  predicate Aborted(fs: Files, f: FileId) {
    f in fs.jobs && TerminalError(fs.jobs[f].report)
  }

  predicate Pending(fs: Files, f: FileId) {
    f in fs.jobs || Gone(fs, f)
  }

  /** The most polls the job still needs. */
  function Left(fs: Files, f: FileId): nat {
    if f in fs.jobs then fs.jobs[f].left else 0
  }

  predicate Timely(fs: Files, gs: Files, f: FileId, delay: nat) {
    Left(gs, f) <= Left(fs, f) || Left(gs, f) <= delay
  }

  /** The path belongs to the tree whose root is `f`. */
  predicate Inside(dirs: map<Path, FileId>, f: FileId, p: Path) {
    exists q | q in dirs :: dirs[q] == f && Within(p, q)
  }

  function Without(dirs: map<Path, FileId>, f: FileId): map<Path, FileId> {
    map p | p in dirs && !Inside(dirs, f, p) :: dirs[p]
  }

  /** Some of the tree below `f` is gone, but not its root. */
  predicate Shrunk(before: map<Path, FileId>, after: map<Path, FileId>, f: FileId) {
    && (forall p <- after :: p in before && after[p] == before[p])
    && (forall p <- before :: p !in after ==> Inside(before, f, p) && before[p] != f)
  }

  /** Nothing outside the tree of `f` is touched, and the root goes last. */
  ghost predicate Pruned(before: map<Path, FileId>, after: map<Path, FileId>, f: FileId) {
    Shrunk(before, after, f) || after == Without(before, f)
  }

  lemma PrunedTwice(a: map<Path, FileId>, b: map<Path, FileId>, c: map<Path, FileId>, f: FileId)
    requires Pruned(a, b, f) && Pruned(b, c, f)
    ensures Pruned(a, c, f)
  {
    if Shrunk(a, b, f) {
      ShrunkInside(a, b, f);
    } else {
      assert f !in b.Values by {
        forall p | p in b ensures b[p] != f { assert Within(p, p); }
      }
      assert c == b;
    }
    hide Within;
  }

  lemma ShrunkInside(a: map<Path, FileId>, b: map<Path, FileId>, f: FileId)
    requires Shrunk(a, b, f)
    ensures forall p :: Inside(b, f, p) <==> Inside(a, f, p)
    ensures Without(b, f) == Without(a, f)
  {
    hide Within;
  }

  lemma WithoutIsGone(dirs: map<Path, FileId>, f: FileId)
    ensures f !in Without(dirs, f).Values
  {
    forall p | p in Without(dirs, f) ensures dirs[p] != f { assert Within(p, p); }
  }

  function Completed(fs: Files, f: FileId): Files {
    fs.(dirs := Without(fs.dirs, f), jobs := fs.jobs - {f})
  }

  function Accept(fs: Files, f: FileId, j: Job): Files {
    fs.(jobs := fs.jobs[f := j], submitted := fs.submitted + [f])
  }

  /** The job may make progress before a poll is answered. On a healthy Core it does, and never aborts. */
  ghost predicate Progress(fs: Files, gs: Files, f: FileId, faulty: bool) {
    if f !in fs.jobs || Aborted(fs, f) then gs == fs
    else
      || gs == Completed(fs, f)
      || (fs.jobs[f].left > 0 && f in gs.jobs && gs.jobs == fs.jobs[f := gs.jobs[f]]
          && gs == fs.(jobs := gs.jobs, dirs := gs.dirs)
          && Shrunk(fs.dirs, gs.dirs, f) && gs.jobs[f].left == fs.jobs[f].left - 1 && (Aborted(gs, f) ==> faulty))
  }

  method GetJob(c: Cluster, f: FileId) returns (fault: bool, status: Option<JobStatus>)
    modifies c
    ensures c.s == old(c.s).(files := c.s.files) && Progress(old(c.s.files), c.s.files, f, c.faulty)
    ensures fault ==> c.faulty
    ensures status == if f in c.s.files.jobs then Some(c.s.files.jobs[f].report) else None
    ensures c.answers == old(c.answers) + [Looked(fault, status)]
  {
    var fs := c.s.files;
    if f in fs.jobs && !Aborted(fs, f) {
      var finished: bool := *;
      if fs.jobs[f].left == 0 || finished {
        c.s := c.s.(files := Completed(fs, f));
      } else {
        var report: JobStatus := *;
        if !c.faulty { report := fs.jobs[f].report; }
        assert Shrunk(fs.dirs, fs.dirs, f);
        var dirs: map<Path, FileId> :| Shrunk(fs.dirs, dirs, f);
        c.s := c.s.(files := fs.(dirs := dirs, jobs := fs.jobs[f := Job(report, fs.jobs[f].left - 1)]));
      }
    }
    fault := c.Fault();
    status := if f in c.s.files.jobs then Some(c.s.files.jobs[f].report) else None;
    c.answers := c.answers + [Looked(fault, status)];
  }

  /** What the POST can do and report: Core accepts one job per existing directory, this caller's or
      that of another which came first. */
  ghost predicate Posted(fs: Files, gs: Files, f: FileId, report: Report, faulty: bool, delay: nat) {
    && (gs == fs || (!Pending(fs, f) && f in gs.jobs && gs == Accept(fs, f, gs.jobs[f])
                     && !Aborted(gs, f) && gs.jobs[f].left <= delay))
    && (report.Accepted? || report.Exists? ==> f in gs.jobs)
    && (report.NotFound? ==> Gone(fs, f))
    && (report.Ambiguous? || report.Refused? ==> faulty)
  }

  method PostJob(c: Cluster, f: FileId) returns (report: Report)
    modifies c
    ensures c.s == old(c.s).(files := c.s.files)
    ensures Posted(old(c.s.files), c.s.files, f, report, c.faulty, c.delay)
    ensures c.answers == old(c.answers) + [Submitted(report)]
  {
    var rival: bool, commit: bool, lost: bool := *, *, *;
    if !c.faulty { commit, lost := true, false; }
    var refusal: Report :| refusal.Ambiguous? || refusal.Refused?;
    var j := Job(JobStatus(None, false, ""), c.delay);
    assert !TerminalError(j.report) by { assert TrimSpace("") == ""; }
    var fs := c.s.files;
    if rival && !Pending(fs, f) {
      fs := Accept(fs, f, j);
    }
    if f in fs.jobs {
      report := Exists;
    } else if Gone(fs, f) {
      report := NotFound;
    } else if commit {
      fs := Accept(fs, f, j);
      report := Accepted;
    } else {
      report := refusal;
    }
    if lost { report := refusal; }
    c.s := c.s.(files := fs);
    c.answers := c.answers + [Submitted(report)];
  }

  // ---------------------------------------------------------------- the client's side

  /** All that deleting the tree of `f` may do: no other job and no other directory is touched, and at
      most one submission is accepted, for a directory that exists and has no job. */
  ghost predicate Confined(fs: Files, gs: Files, f: FileId) {
    && gs.full == fs.full && gs.jobs - {f} == fs.jobs - {f}
    && Pruned(fs.dirs, gs.dirs, f)
    && (gs.submitted == fs.submitted
        || (gs.submitted == fs.submitted + [f] && !Pending(fs, f) && Pending(gs, f)))
    && (Pending(fs, f) ==> Pending(gs, f))
    && (Aborted(fs, f) ==> gs == fs)
  }

  lemma ConfinedByProgress(fs: Files, gs: Files, hs: Files, f: FileId, faulty: bool)
    requires Confined(fs, gs, f) && Progress(gs, hs, f, faulty)
    ensures Confined(fs, hs, f)
    ensures f in gs.jobs ==> Pending(hs, f)
    ensures f in gs.jobs && f !in hs.jobs ==> Gone(hs, f)
  {
    PrunedTwice(fs.dirs, gs.dirs, hs.dirs, f);
    WithoutIsGone(gs.dirs, f);
    assert hs.jobs - {f} == gs.jobs - {f};
    hide TerminalError, Without, Shrunk, Pruned;
  }

  lemma ConfinedByPost(fs: Files, gs: Files, hs: Files, f: FileId, report: Report, faulty: bool, delay: nat)
    requires Confined(fs, gs, f) && gs.submitted == fs.submitted && Posted(gs, hs, f, report, faulty, delay)
    ensures Confined(fs, hs, f)
  {
    assert hs.jobs - {f} == gs.jobs - {f};
    hide TerminalError, Pruned;
  }

  /** Waiting ended without success because a poll failed, the job had stopped with an error, or patience had run
      out. */
  ghost predicate StoppedWaiting(t: seq<Answer>, patience: nat) {
    || |t| > patience
    || (t != [] && t[|t| - 1].Looked?
        && (t[|t| - 1].fault || (t[|t| - 1].record.Some? && TerminalError(t[|t| - 1].record.value))))
  }

  lemma FaultStops(t: seq<Answer>, patience: nat)
    ensures t != [] && t[|t| - 1].Looked? && t[|t| - 1].fault ==> StoppedWaiting(t, patience)
  {
  }

  /** The polling loop. It succeeds only when a record that existed is gone; `patience` counts the polls
      until the caller's context is done. */
  method WaitForTreeDelete(c: Cluster, f: FileId, initial: Option<JobStatus>, patience: nat, ghost start: Files,
      ghost from: nat)
      returns (ok: bool)
    requires Confined(start, c.s.files, f) && Pending(c.s.files, f)
    requires initial.Some? ==> f in c.s.files.jobs && initial.value == c.s.files.jobs[f].report
    requires from < |c.answers| && (initial.Some? ==> c.answers[|c.answers| - 1] == Looked(false, initial))
    modifies c
    ensures c.s == old(c.s).(files := c.s.files) && Confined(start, c.s.files, f)
    ensures old(c.answers) <= c.answers
    ensures !ok ==> StoppedWaiting(c.answers[from..], patience)
    ensures Timely(old(c.s.files), c.s.files, f, 0)
    ensures ok ==> Gone(c.s.files, f)
    ensures Aborted(old(c.s.files), f) ==> !ok
    ensures !ok && !c.faulty ==> Aborted(old(c.s.files), f) || patience <= Left(old(c.s.files), f)
  {
    var status := initial;
    var waited := 0;
    var base := if initial.Some? then 1 else 0;
    ghost var first := c.s.files;
    while true
      invariant c.s == old(c.s).(files := c.s.files) && Confined(start, c.s.files, f) && Pending(c.s.files, f)
      invariant status.Some? ==>
                waited == 0 && base == 1 && f in c.s.files.jobs && status.value == c.s.files.jobs[f].report
      invariant status.Some? ==> c.s.files == first
      invariant Left(c.s.files, f) <= Left(first, f)
      invariant waited <= patience && (status.None? ==> base <= waited)
      invariant old(c.answers) <= c.answers
                && |c.answers| >= |old(c.answers)| + waited - (if status.None? then base else 0)
      invariant status.Some? ==> c.answers == old(c.answers)
      invariant !c.faulty && Aborted(c.s.files, f) ==> Aborted(first, f)
      invariant Aborted(first, f) ==> c.s.files == first
      invariant f in c.s.files.jobs ==> f in first.jobs && waited + Left(c.s.files, f) <= Left(first, f) + base
      decreases patience - waited
    {
      hide TerminalError, Confined, Without, Shrunk;
      if status.None? {
        ghost var before := c.s.files;
        var fault, found := GetJob(c, f);
        ConfinedByProgress(start, before, c.s.files, f, c.faulty);
        if fault { return false; }
        if found.None? { return true; }
        status := found;
      }
      if TerminalError(status.value) { return false; }
      status := None;
      if waited == patience { return false; }
      waited := waited + 1;
    }
  }

  /** A job has failed for good exactly if its record names an error, is flagged aborted or has that status, in
      any case and with any spaces around it. */
  lemma AbortedIff(fs: Files, f: FileId)
    ensures f in fs.jobs ==>
              (Aborted(fs, f)
               <==> fs.jobs[f].report.lastError.Some? || fs.jobs[f].report.aborted
                    || EqualFold(TrimSpace(fs.jobs[f].report.status), "aborted"))
  {
    hide EqualFold, TrimSpace;
  }

  /** Deletes the tree of `f`. Success means it is gone. At most one submission is accepted, and none
      while a job exists; an aborted job and an ambiguous submission that cannot be observed are never
      taken for success. On a healthy Core with enough patience it fails only on an aborted job. */
  method TreeDelete(c: Cluster, f: FileId, patience: nat) returns (ok: bool)
    modifies c
    ensures c.s == old(c.s).(files := c.s.files) && Confined(old(c.s.files), c.s.files, f)
    ensures Timely(old(c.s.files), c.s.files, f, c.delay)
    ensures ok ==> Gone(c.s.files, f)
    ensures Aborted(old(c.s.files), f) ==> !ok
    // It gives up only when a look fails or finds a job stopped by an error, when the submission is refused or has no
    // answer and is not on record, or when patience runs out.
    ensures old(c.answers) <= c.answers
    ensures !ok && f != "" ==>
              var t := c.answers[|old(c.answers)|..];
              || StoppedWaiting(t, patience) || (t != [] && t[|t| - 1] == Submitted(Refused))
              || (|t| == 3 && t[1] == Submitted(Ambiguous) && t[2] == Looked(false, None))
    ensures f == "" ==> !ok
    ensures !ok && !c.faulty ==>
            f == "" || Aborted(old(c.s.files), f) || patience <= Left(old(c.s.files), f) || patience <= c.delay
  {
    if f == "" { return false; }
    ghost var start, from := c.s.files, |c.answers|;
    assert Confined(start, start, f);
    hide TerminalError, Confined, StoppedWaiting;
    var fault, status := GetJob(c, f);
    ConfinedByProgress(start, start, c.s.files, f, c.faulty);
    FaultStops(c.answers[from..], patience);
    if fault { return false; }
    if status.Some? {
      ok := WaitForTreeDelete(c, f, status, patience, start, from);
      return;
    }
    ghost var before := c.s.files;
    var report := PostJob(c, f);
    ConfinedByPost(start, before, c.s.files, f, report, c.faulty, c.delay);
    if report.NotFound? { return true; }
    if report.Refused? { return false; }
    if report.Ambiguous? {
      before := c.s.files;
      fault, status := GetJob(c, f);
      ConfinedByProgress(start, before, c.s.files, f, c.faulty);
      FaultStops(c.answers[from..], patience);
      if fault || status.None? { return false; }
    }
    ok := WaitForTreeDelete(c, f, status, patience, start, from);
  }

  // ---------------------------------------------------------------- over any number of calls

  /** The tree of `f` was submitted at most once, and if it was its job exists or it is gone. */
  ghost predicate SubmittedOnce(fs: Files, f: FileId) {
    multiset(fs.submitted)[f] <= 1 && (f in fs.submitted ==> Pending(fs, f))
  }

  /** However often deleting is retried, no tree is ever submitted twice. */
  lemma NeverTwice(fs: Files, gs: Files, f: FileId, g: FileId)
    requires Confined(fs, gs, f) && SubmittedOnce(fs, g)
    ensures SubmittedOnce(gs, g)
  {
    assert g != f ==> (g in fs.jobs <==> g in fs.jobs - {f}) && (g in gs.jobs <==> g in gs.jobs - {f});
    assert g in multiset(fs.submitted) <==> g in fs.submitted;
    if g in gs.submitted && g !in fs.submitted { assert g == f; }
  }
}
