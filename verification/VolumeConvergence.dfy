/** When a retried DeleteVolume completes.

    From any reachable state a fault-free retry, left alone with Core, finishes exactly when none of
    three guards refuses it: the volume's path holds another directory, or its own with an aborted
    tree-delete job on record, or its resource has gone to another handle's deletion. The third cannot
    happen to a safe volume. `VolumeRuns` shows that all three can come about. */
module VolumeConvergence {
  import opened Paths
  import opened VolumeProtocol
  import opened VolumeSafety
  import opened VolumeOwnership

  /** The job for `d`, if there is one that is running, runs to its end; an aborted one stays on record. */
  function JobEnds(c: Core, d: DirId): Core {
    if d !in c.jobs || c.jobs[d].aborted then c
    else if Alive(c, d) then RemoveTree(c, c.born[d]).(jobs := c.jobs - {d})
    else c.(jobs := c.jobs - {d})
  }

  /** What a Core without faults reports: submitting a job for a directory that is gone is a 404. */
  function HonestReport(c: Core, h: Handle, pc: DeletePc): Report {
    if pc.Submit? && !Alive(c, h.did) then NotFound else Ok
  }

  /** `n` fault-free calls of one deletion, with Core finishing its job after each. */
  function Retry(c: Core, h: Handle, pc: DeletePc, n: nat): DeletePc
    decreases n
  {
    if n == 0 then pc
    else
      var (c', pc') := DeleteCall(c, h, pc, true, HonestReport(c, h, pc));
      Retry(JobEnds(c', h.did), h, pc', n - 1)
  }

  const RETRY_CALLS := 9

  /** The guard DeleteVolume applies to the path before it touches anything. */
  predicate PathReplaced(c: Core, h: Handle) {
    h.spec.deleteData && h.spec.path in c.dirs && c.dirs[h.spec.path] != h.did
  }

  /** The directory is still there and its tree-delete has stopped with an error. */
  predicate DeletionAborted(c: Core, h: Handle) {
    && h.spec.deleteData && h.spec.path in c.dirs && c.dirs[h.spec.path] == h.did
    && h.did in c.jobs && c.jobs[h.did].aborted
  }

  /** Another handle's deletion has entombed the resource, or has removed it while this directory lives. */
  predicate Orphaned(c: Core, h: Handle) {
    h.spec.deleteData &&
    if h.rid in c.res then c.res[h.rid].marker.Tombstone? && c.res[h.rid].marker != Tombstone(h)
    else h.spec.path in c.dirs && c.dirs[h.spec.path] == h.did
  }

  lemma {:induction false} Finished(c: Core, h: Handle, pc: DeletePc, n: nat)
    requires pc.Deleted? || pc.DeleteFailed?
    ensures Retry(c, h, pc, n) == pc
    decreases n
  {
    if n > 0 { Finished(JobEnds(c, h.did), h, pc, n - 1); }
  }

  lemma RetryFromRemoval(c: Core, h: Handle, n: nat)
    requires n >= 2
    requires h.rid in c.res ==> SameTarget(c.res[h.rid], h.spec) && c.res[h.rid].marker == RemovalMarker(h)
    ensures Retry(c, h, RemoveRead(0), n) == Deleted
  {
    if h.rid !in c.res {
      Finished(JobEnds(c, h.did), h, Deleted, n - 1);
    } else {
      var c1 := JobEnds(c, h.did);
      var seen := c.res[h.rid].version;
      assert Retry(c, h, RemoveRead(0), n) == Retry(c1, h, RemoveSend(0, seen), n - 1);
      Finished(JobEnds(RemoveResource(c1, h.rid), h.did), h, Deleted, n - 2);
    }
  }

  lemma RetryFromTreeDelete(c: Core, h: Handle, n: nat)
    requires n >= 5 && h.spec.deleteData && Entombed(c, h) && SameTarget(c.res[h.rid], h.spec)
    requires h.did !in c.jobs
    ensures Retry(c, h, Inspect, n) == Deleted
  {
    if !Alive(c, h.did) {
      assert Retry(c, h, Inspect, n) == Retry(c, h, Submit, n - 1) == Retry(c, h, RemoveRead(0), n - 2);
      RetryFromRemoval(c, h, n - 2);
    } else {
      var c2 := JobEnds(c.(jobs := c.jobs[h.did := Job(h, false)]), h.did);
      assert Retry(c, h, Inspect, n) == Retry(c, h, Submit, n - 1) == Retry(c2, h, Poll, n - 2);
      assert Retry(c2, h, Poll, n - 2) == Retry(c2, h, RemoveRead(0), n - 3);
      RetryFromRemoval(c2, h, n - 3);
    }
  }

  lemma RetryFromPrepare(c: Core, h: Handle, gone: bool, n: nat)
    requires n >= 7 && h.spec.deleteData && HandleOk(c, h)
    requires h.rid in c.res && c.res[h.rid].marker.Tombstone? ==> Entombed(c, h)
    requires JobEnds(c, h.did) == c && (gone || (h.did !in c.jobs && h.rid in c.res))
    ensures Retry(c, h, PrepareRead(gone, 0), n) == Deleted
  {
    if h.rid !in c.res {
      Finished(c, h, Deleted, n - 1);
    } else if Entombed(c, h) {
      assert Retry(c, h, PrepareRead(gone, 0), n) == Retry(c, h, AfterPrepare(gone), n - 1);
      if gone { RetryFromRemoval(c, h, n - 1); } else { RetryFromTreeDelete(c, h, n - 1); }
    } else {
      var c1 := Entomb(c, h);
      assert Retry(c, h, PrepareRead(gone, 0), n) == Retry(c, h, PreparePatch(gone, 0, c.res[h.rid].version), n - 1);
      assert Retry(c, h, PreparePatch(gone, 0, c.res[h.rid].version), n - 1) == Retry(c1, h, AfterPrepare(gone), n - 2);
      if gone { RetryFromRemoval(c1, h, n - 2); } else { RetryFromTreeDelete(c1, h, n - 2); }
    }
  }

  /** With an aborted job on record the deletion gets as far as looking at it. */
  lemma RetryAborted(c: Core, h: Handle)
    requires DeletionAborted(c, h) && HandleOk(c, h)
    requires h.rid in c.res && c.res[h.rid].marker.Tombstone? ==> Entombed(c, h)
    ensures Retry(c, h, DeleteStart(h), RETRY_CALLS) == DeleteFailed
  {
    var n := RETRY_CALLS - 1;
    assert Retry(c, h, Attributes, RETRY_CALLS) == Retry(c, h, PrepareRead(false, 0), n);
    if h.rid !in c.res {
      Finished(c, h, DeleteFailed, n - 1);
    } else if Entombed(c, h) {
      assert Retry(c, h, PrepareRead(false, 0), n) == Retry(c, h, Inspect, n - 1);
      Finished(c, h, DeleteFailed, n - 2);
    } else {
      var c1 := Entomb(c, h);
      assert Retry(c, h, PrepareRead(false, 0), n) == Retry(c, h, PreparePatch(false, 0, c.res[h.rid].version), n - 1);
      assert Retry(c, h, PreparePatch(false, 0, c.res[h.rid].version), n - 1) == Retry(c1, h, Inspect, n - 2);
      Finished(c1, h, DeleteFailed, n - 3);
    }
  }

  lemma RetryOrphaned(c: Core, h: Handle)
    requires Orphaned(c, h) && HandleOk(c, h) && !PathReplaced(c, h)
    ensures Retry(c, h, DeleteStart(h), RETRY_CALLS) == DeleteFailed
  {
    var gone := h.spec.path !in c.dirs;
    var c1 := JobEnds(c, h.did);
    assert Retry(c, h, Attributes, RETRY_CALLS) == Retry(c1, h, PrepareRead(gone, 0), RETRY_CALLS - 1);
    assert DeleteCall(c1, h, PrepareRead(gone, 0), true, Ok) == (c1, DeleteFailed);
    Finished(JobEnds(c1, h.did), h, DeleteFailed, RETRY_CALLS - 2);
  }

  lemma RetainedKeepsMarker(c: Core, h: Handle, requested: set<Handle>)
    requires CoreOk(c, requested) && HandleOk(c, h) && !h.spec.deleteData && h.rid in c.res
    ensures SameTarget(c.res[h.rid], h.spec) && c.res[h.rid].marker == RemovalMarker(h)
  {
  }

  /** In every run, whatever was requested, a fault-free retry of DeleteVolume for an issued handle completes
      if and only if its path has not been taken over by another directory, no aborted job is in the way
      and no other handle's deletion has its resource. */
  lemma DeleteConvergesIff(s: State, events: seq<Event>, h: Handle)
    requires Initial(s) && h in Run(s, events).issued
    ensures var c := Run(s, events).core;
            Retry(c, h, DeleteStart(h), RETRY_CALLS) == Deleted
            <==> !PathReplaced(c, h) && !DeletionAborted(c, h) && !Orphaned(c, h)
  {
    RunConsistent(s, events);
    var c := Run(s, events).core;
    assert HandleOk(c, h);
    assert CoreOk(c, Run(s, events).requested);
    hide CoreOk, Evolves, Run, Within;
    if !h.spec.deleteData {
      if h.rid in c.res { RetainedKeepsMarker(c, h, Run(s, events).requested); }
      RetryFromRemoval(c, h, RETRY_CALLS);
    } else if PathReplaced(c, h) {
      Finished(JobEnds(c, h.did), h, DeleteFailed, RETRY_CALLS - 1);
    } else if Orphaned(c, h) {
      RetryOrphaned(c, h);
    } else if DeletionAborted(c, h) {
      RetryAborted(c, h);
    } else {
      var gone := h.spec.path !in c.dirs;
      var c1 := JobEnds(c, h.did);
      assert Retry(c, h, DeleteStart(h), RETRY_CALLS) == Retry(c1, h, PrepareRead(gone, 0), RETRY_CALLS - 1);
      RetryFromPrepare(c1, h, gone, RETRY_CALLS - 1);
    }
  }

  /** The third guard never refuses the deletion of a safe volume. */
  lemma SafeNeverOrphaned(s: State, specs: set<Spec>, events: seq<Event>, h: Handle)
    requires Initial(s) && Asked(specs, events) && h in Run(s, events).issued
    requires h.spec.deleteData ==> Safe(specs, h.spec)
    ensures !Orphaned(Run(s, events).core, h)
  {
    if h.spec.deleteData {
      RunOwnership(s, specs, h.spec, events);
      assert HandleOk(Run(s, events).core, h) && Owned(Run(s, events), h);
      hide CoreOk, Evolves, Run;
    }
  }
}
