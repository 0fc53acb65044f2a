/** Deleting a bucket: unregistering, and purging its tree.

    The handle records the root path and file id the bucket was created with. `Admitted` is the guard
    the driver evaluates before it changes anything; everything else is proved around it. */
module BucketDeletion {
  import opened Paths
  import opened S3Cluster
  import opened TreeDeletion
  import opened Wrappers
  import opened Text

  datatype Class = Class(purgeOnDelete: bool, deleteRootDir: bool)

  /** A handle from before immutable identities were recorded. */
  predicate Legacy(b: BucketHandle) {
    b.root == "" || b.fileId == ""
  }

  predicate Purges(b: BucketHandle, cls: Class) {
    b.managed && cls.purgeOnDelete && !Legacy(b)
  }

  predicate DropsRoot(b: BucketHandle, cls: Class) {
    b.managed && cls.deleteRootDir
  }

  predicate ValidPurgeRoot(root: Path) {
    TrimSlashes(root) != "" && root[0] == '/'
  }

  lemma {:induction false} TrimmedIsPrefix(p: Path)
    ensures TrimSlashes(p) <= p
    decreases |p|
  {
    if p != "" && p[|p| - 1] == '/' { TrimmedIsPrefix(p[..|p| - 1]); }
  }

  lemma {:induction false} OnlySlashes(p: Path)
    ensures TrimSlashes(p) == "" <==> forall c <- p :: c == '/'
    decreases |p|
  {
    if p != "" {
      var front, last := p[..|p| - 1], p[|p| - 1];
      OnlySlashes(front);
      assert p == front + [last];
      assert forall x :: x in p <==> x in front || x == last;
      if last != '/' { assert last in p && TrimSlashes(p) == p; }
    }
  }

  lemma MatchingRoots(a: Path, b: Path)
    requires PathsMatch(a, b)
    ensures ValidPurgeRoot(a) <==> ValidPurgeRoot(b)
  {
    TrimmedIsPrefix(a);
    TrimmedIsPrefix(b);
  }

  /** The root the bucket has now, or had when it was created. */
  function LiveRoot(s: S3, b: BucketHandle): Path {
    if b.name in s.buckets then s.buckets[b.name] else b.root
  }

  /** Neither the bucket nor its root has been replaced, and the root may be purged. */
  predicate PurgeAdmitted(s: S3, b: BucketHandle) {
    var root := LiveRoot(s, b);
    && ValidPurgeRoot(root) && PathsMatch(root, b.root)
    && (FileAt(s, root) == None || FileAt(s, root) == Some(b.fileId))
  }

  predicate PlainAdmitted(s: S3, b: BucketHandle) {
    b.name in s.buckets ==> PathsMatch(s.buckets[b.name], b.root) && FileAt(s, b.root) == Some(b.fileId)
  }

  predicate Admitted(s: S3, b: BucketHandle, cls: Class) {
    Legacy(b) || (if Purges(b, cls) then PurgeAdmitted(s, b) else PlainAdmitted(s, b))
  }

  /** Directories are never renamed: the recorded file id is nowhere but at the recorded path. */
  predicate Moored(s: S3, b: BucketHandle) {
    forall p <- s.files.dirs :: s.files.dirs[p] == b.fileId ==> p == TrimSlashes(b.root)
  }

  /** The directory holds objects or other directories. */
  predicate Occupied(s: S3, root: Path) {
    || (FileAt(s, root).Some? && FileAt(s, root).value in s.files.full)
    || exists p | p in s.files.dirs :: p != TrimSlashes(root) && Within(p, TrimSlashes(root))
  }

  // ---------------------------------------------------------------- Core's side

  function Unregistered(s: S3, name: string): S3 {
    s.(buckets := s.buckets - {name})
  }

  /** Unregistering together with the root directory. */
  function Demolished(s: S3, name: string): S3
    requires name in s.buckets
  {
    var root := TrimSlashes(s.buckets[name]);
    s.(buckets := s.buckets - {name}, rootDeletes := s.rootDeletes + [name],
       files := s.files.(dirs := s.files.dirs - {root}))
  }

  predicate NotEmpty(s: S3, name: string)
    requires name in s.buckets
  {
    name in s.uploads || Occupied(s, s.buckets[name])
  }

  datatype Outcome = Done | Missing | Busy | Fault

  method RemoveBucket(c: Cluster, name: string, rootDir: bool) returns (r: Outcome)
    modifies c
    ensures var s := old(c.s);
            && (c.s == s || (name in s.buckets && (if rootDir then !NotEmpty(s, name) && c.s == Demolished(s, name)
                                                   else c.s == Unregistered(s, name))))
            && (r.Done? || r.Missing? ==> name !in c.s.buckets)
            && (r.Busy? ==> rootDir && name in s.buckets && NotEmpty(s, name) && c.s == s)
            && (r.Fault? ==> c.faulty)
  {
    var commit: bool, lost: bool := *, *;
    if !c.faulty { commit, lost := true, false; }
    if name !in c.s.buckets {
      r := Missing;
    } else if rootDir && NotEmpty(c.s, name) {
      r := Busy;
    } else if commit {
      c.s := if rootDir then Demolished(c.s, name) else Unregistered(c.s, name);
      r := Done;
    } else {
      r := Fault;
    }
    if lost { r := Fault; }
  }

  /** Aborts the uploads it finds; each may fail, and another may begin on a faulty Core. */
  method AbortAllUploads(c: Cluster, name: string) returns (ok: bool)
    modifies c
    ensures c.s == old(c.s).(uploads := c.s.uploads) && c.s.uploads - {name} == old(c.s).uploads - {name}
    ensures !c.faulty ==> ok && name !in c.s.uploads
  {
    ok := *;
    var left: bool := *;
    if !c.faulty { ok, left := true, false; }
    c.s := c.s.(uploads := if left then c.s.uploads else c.s.uploads - {name});
  }

  // ---------------------------------------------------------------- purging

  /** All that purging may change. */
  ghost predicate PurgeConfined(s: S3, t: S3, b: BucketHandle) {
    && t == s.(buckets := t.buckets, files := t.files)
    && (t.buckets == s.buckets || (b.name in s.buckets && t.buckets == s.buckets - {b.name}))
    && Confined(s.files, t.files, b.fileId)
    && (PurgeAdmitted(s, b) ==> PurgeAdmitted(t, b))
    && (!PurgeAdmitted(s, b) ==> t == s)
  }

  /** Whatever part of a purge has happened, it is still admitted. */
  lemma StillAdmitted(s: S3, t: S3, b: BucketHandle)
    requires t == s.(buckets := t.buckets, files := t.files)
    requires t.buckets == s.buckets || t.buckets == s.buckets - {b.name}
    requires Pruned(s.files.dirs, t.files.dirs, b.fileId)
    requires PurgeAdmitted(s, b)
    ensures PurgeAdmitted(t, b)
  {
    MatchingRoots(LiveRoot(s, b), b.root);
    hide TrimSlashes, Inside;
  }

  lemma PurgeStep(s: S3, t: S3, b: BucketHandle)
    requires t == s.(buckets := t.buckets, files := t.files)
    requires t.buckets == s.buckets || (b.name in s.buckets && t.buckets == s.buckets - {b.name})
    requires Confined(s.files, t.files, b.fileId) && PurgeAdmitted(s, b)
    ensures PurgeConfined(s, t, b)
  {
    StillAdmitted(s, t, b);
  }

  lemma MooredGone(s: S3, b: BucketHandle)
    requires PurgeAdmitted(s, b) && Moored(s, b) && FileAt(s, LiveRoot(s, b)) == None
    ensures Gone(s.files, b.fileId)
  {
  }

  /** The purge cannot finish while an aborted job for the root is on record. */
  predicate PurgeStuck(s: S3, b: BucketHandle) {
    FileAt(s, LiveRoot(s, b)).Some? && Aborted(s.files, b.fileId)
  }

  /** A finished purge has removed exactly the tree below the recorded root. */
  lemma PurgeTakesExactlyTheTree(s: S3, t: S3, b: BucketHandle)
    requires PurgeConfined(s, t, b) && Moored(s, b) && FileAt(s, b.root) == Some(b.fileId) && Gone(t.files, b.fileId)
    ensures forall p <- s.files.dirs :: p in t.files.dirs <==> !Within(p, TrimSlashes(b.root))
  {
    var root := TrimSlashes(b.root);
    assert s.files.dirs[root] == b.fileId;
    assert t.files.dirs == Without(s.files.dirs, b.fileId);
    hide TrimSlashes, Within, Pruned, Confined, PurgeAdmitted;
  }

  /** So the root of another bucket survives exactly when it does not lie in that tree. */
  lemma OtherRootSurvivesIff(s: S3, t: S3, b: BucketHandle, other: string)
    requires PurgeConfined(s, t, b) && Moored(s, b) && FileAt(s, b.root) == Some(b.fileId) && Gone(t.files, b.fileId)
    requires other in s.buckets && other != b.name && FileAt(s, s.buckets[other]).Some?
    ensures other in t.buckets && t.buckets[other] == s.buckets[other]
    ensures FileAt(t, s.buckets[other]) == FileAt(s, s.buckets[other])
            <==> !Within(TrimSlashes(s.buckets[other]), TrimSlashes(b.root))
  {
    PurgeTakesExactlyTheTree(s, t, b);
    hide TrimSlashes, Within;
  }

  /** A purge gets stuck like this: the bucket is unregistered, the tree-delete accepted, and its job
      reports an error. Nothing was replaced, yet from then on the purge is blocked. */
  lemma AbortedPurgeIsBlocked(s: S3, b: BucketHandle, cls: Class, delay: nat, error: string)
    requires Purges(b, cls) && b.name in s.buckets && PurgeAdmitted(s, b) && FileAt(s, b.root) == Some(b.fileId)
    requires b.fileId !in s.files.jobs && delay > 0
    ensures var accepted := Accept(s.files, b.fileId, Job(JobStatus(None, false, ""), delay));
            var aborted := accepted.(jobs := accepted.jobs[b.fileId := Job(JobStatus(Some(error), true, ""),
                delay - 1)]);
            var t := Unregistered(s, b.name).(files := aborted);
            && Posted(s.files, accepted, b.fileId, Accepted, true, delay) && Progress(accepted, aborted, b.fileId, true)
            && PurgeConfined(s, t, b) && Admitted(t, b, cls) && Blocked(t, b, cls)
  {
    var f := b.fileId;
    var accepted := Accept(s.files, f, Job(JobStatus(None, false, ""), delay));
    var aborted := accepted.(jobs := accepted.jobs[f := Job(JobStatus(Some(error), true, ""), delay - 1)]);
    assert !Aborted(accepted, f) by { assert TrimSpace("") == ""; }
    assert s.files.dirs[TrimSlashes(b.root)] == f;
    assert aborted.jobs - {f} == s.files.jobs - {f};
    hide TrimSlashes, TrimSpace, Inside, Without;
    StillAdmitted(s, Unregistered(s, b.name).(files := aborted), b);
  }

  /** One such cluster. */
  lemma PurgeCanBeStuck()
    ensures var b := BucketHandle("b", "/b", "7", true);
            var s := S3(map[], 0, map[], 0, map[], map[], map["b" := "/b"], {}, [],
                Files(map["/b" := "7"], {}, map[], []));
            var cls := Class(true, false);
            && Admitted(s, b, cls) && !Blocked(s, b, cls)
            && exists t :: PurgeConfined(s, t, b) && Admitted(t, b, cls) && Blocked(t, b, cls)
  {
    var b := BucketHandle("b", "/b", "7", true);
    var s := S3(map[], 0, map[], 0, map[], map[], map["b" := "/b"], {}, [], Files(map["/b" := "7"], {}, map[], []));
    assert TrimSlashes("/b") == "/b";
    AbortedPurgeIsBlocked(s, b, Class(true, false), 1, "");
    hide Admitted, Blocked, PurgeConfined;
    hide TrimSlashes;
  }

  predicate Patient(c: Cluster, f: FileId, patience: nat)
    reads c
  {
    c.delay < patience && Left(c.s.files, f) < patience
  }

  /** Unregister, then delete the tree; resumes at the tree when the bucket is already gone. */
  method Purge(c: Cluster, b: BucketHandle, patience: nat) returns (ok: bool)
    requires !Legacy(b)
    modifies c
    ensures PurgeConfined(old(c.s), c.s, b) && Timely(old(c.s.files), c.s.files, b.fileId, c.delay)
    ensures ok ==> b.name !in c.s.buckets && (Moored(old(c.s), b) ==> Gone(c.s.files, b.fileId))
    ensures !PurgeAdmitted(old(c.s), b) || PurgeStuck(old(c.s), b) ==> !ok
    ensures !ok && !c.faulty && old(Patient(c, b.fileId, patience)) ==>
            !PurgeAdmitted(old(c.s), b) || PurgeStuck(old(c.s), b)
  {
    ghost var s0 := c.s;
    assert Confined(s0.files, s0.files, b.fileId);
    hide Confined, Aborted, TrimSlashes;
    if PurgeAdmitted(s0, b) { PurgeStep(s0, s0, b); }
    var fault := c.Fault();
    if fault { return false; }
    if b.name !in c.s.buckets {
      if !ValidPurgeRoot(b.root) { return false; }
      fault := c.Fault();
      if fault { return false; }
      var attrs := FileAt(c.s, b.root);
      if attrs.None? {
        if Moored(s0, b) { MooredGone(s0, b); }
        return true;
      }
      if attrs.value != b.fileId { return false; }
      ok := TreeDelete(c, b.fileId, patience);
      PurgeStep(s0, c.s, b);
      return;
    }
    var root := c.s.buckets[b.name];
    if !ValidPurgeRoot(root) || !PathsMatch(root, b.root) { return false; }
    fault := c.Fault();
    if fault { return false; }
    var attrs := FileAt(c.s, root);
    if attrs.Some? && attrs.value != b.fileId { return false; }
    var removed := RemoveBucket(c, b.name, false);
    PurgeStep(s0, c.s, b);
    if !(removed.Done? || removed.Missing?) { return false; }
    if attrs.None? {
      if Moored(s0, b) { MooredGone(s0, b); }
      return true;
    }
    ok := TreeDelete(c, attrs.value, patience);
    PurgeStep(s0, c.s, b);
  }

  // ---------------------------------------------------------------- unregistering

  /** All that unregistering may change: at most the one bucket goes, with its root only if asked for
      and empty. No tree-delete is submitted. */
  ghost predicate PlainConfined(s: S3, t: S3, b: BucketHandle, rootDir: bool) {
    && t.uploads - {b.name} == s.uploads - {b.name} && (!rootDir ==> t.uploads == s.uploads)
    && (t == s.(uploads := t.uploads)
        || (b.name in s.buckets && !rootDir && t == Unregistered(s, b.name).(uploads := t.uploads))
        || (b.name in s.buckets && rootDir && FileAt(s, b.root) == Some(b.fileId) && !Occupied(s, b.root)
            && t == Demolished(s, b.name).(uploads := t.uploads)))
  }

  /** The root is to go with the bucket but is not empty. */
  predicate RootFull(s: S3, b: BucketHandle) {
    b.name in s.buckets && Occupied(s, b.root)
  }

  method Unregister(c: Cluster, b: BucketHandle, rootDir: bool) returns (ok: bool)
    requires !Legacy(b)
    modifies c
    ensures PlainConfined(old(c.s), c.s, b, rootDir)
    ensures ok ==> b.name !in c.s.buckets
    ensures ok && !c.faulty && rootDir && b.name in old(c.s.buckets)
            ==> c.s.rootDeletes == old(c.s.rootDeletes) + [b.name]
    ensures !PlainAdmitted(old(c.s), b) ==> !ok && c.s == old(c.s)
    ensures rootDir && RootFull(old(c.s), b) ==> !ok
    ensures !ok && !c.faulty ==> !PlainAdmitted(old(c.s), b) || (rootDir && RootFull(old(c.s), b))
  {
    var fault := c.Fault();
    if fault { return false; }
    if b.name !in c.s.buckets { return true; }
    var root := c.s.buckets[b.name];
    if !PathsMatch(root, b.root) { return false; }
    fault := c.Fault();
    if fault || FileAt(c.s, root) != Some(b.fileId) { return false; }
    hide TrimSlashes;
    if rootDir {
      var _ := AbortAllUploads(c, b.name);
    }
    var r := RemoveBucket(c, b.name, rootDir);
    if r.Busy? && rootDir {
      var aborted := AbortAllUploads(c, b.name);
      if aborted {
        r := RemoveBucket(c, b.name, true);
      }
    }
    return r.Done? || r.Missing?;
  }

  // ---------------------------------------------------------------- the RPC

  /** What a delete can change, by the kind of handle: data only through a managed handle that records
      its root's identity, and then only the tree below that root. */
  ghost predicate DeleteConfined(s: S3, t: S3, b: BucketHandle, cls: Class) {
    && (t.buckets == s.buckets || t.buckets == s.buckets - {b.name})
    && (t.rootDeletes != s.rootDeletes || t.files.dirs != s.files.dirs ==>
        b.managed && !Legacy(b) && Admitted(s, b, cls))
    && (t.files.submitted != s.files.submitted ==>
        Purges(b, cls) && t.files.submitted == s.files.submitted + [b.fileId])
    && (forall p <- s.files.dirs ::
        !Inside(s.files.dirs, b.fileId, p) ==> p in t.files.dirs && t.files.dirs[p] == s.files.dirs[p])
  }

  lemma PurgeIsDelete(s: S3, t: S3, b: BucketHandle, cls: Class)
    requires Purges(b, cls) && PurgeConfined(s, t, b)
    ensures DeleteConfined(s, t, b, cls)
  {
    hide TrimSlashes, TerminalError;
  }

  lemma PlainIsDelete(s: S3, t: S3, b: BucketHandle, cls: Class)
    requires !Purges(b, cls) && !Legacy(b) && PlainConfined(s, t, b, DropsRoot(b, cls))
    requires !PlainAdmitted(s, b) ==> t == s
    ensures DeleteConfined(s, t, b, cls)
  {
    hide TrimSlashes;
  }

  /** What keeps a delete on a healthy Core from finishing although nothing has been replaced. */
  predicate Blocked(s: S3, b: BucketHandle, cls: Class) {
    !Legacy(b) && if Purges(b, cls) then PurgeStuck(s, b) else DropsRoot(b, cls) && RootFull(s, b)
  }

  lemma BadPurgeRoot(s: S3, b: BucketHandle)
    requires b.root != ""
    ensures b.root[0] != '/' || (forall x <- b.root :: x == '/') ==> !PurgeAdmitted(s, b)
  {
    OnlySlashes(b.root);
    if PathsMatch(LiveRoot(s, b), b.root) { MatchingRoots(LiveRoot(s, b), b.root); }
    hide TrimSlashes;
  }

  lemma EmptyRoot(s: S3, b: BucketHandle)
    ensures FileAt(s, b.root) == Some(b.fileId) ==>
              (!Occupied(s, b.root)
               <==> b.fileId !in s.files.full
                    && forall p <- s.files.dirs :: Within(p, TrimSlashes(b.root)) ==> p == TrimSlashes(b.root))
  {
    hide TrimSlashes, Within;
  }

  /** The delete RPC. Success means the bucket is unregistered and, for a purge, its root gone. A bucket
      or root that has been replaced is refused without any change. On a healthy Core the call
      succeeds exactly when nothing was replaced and nothing blocks it. */
  method DriverDeleteBucket(c: Cluster, b: BucketHandle, cls: Class, patience: nat) returns (ok: bool)
    modifies c
    // What each setting of the class allows and demands.
    ensures c.s.files.submitted != old(c.s.files.submitted) ==>
              b.managed && cls.purgeOnDelete && b.root != "" && b.fileId != ""
    ensures c.s.rootDeletes != old(c.s.rootDeletes) ==>
              b.managed && cls.deleteRootDir && !cls.purgeOnDelete && b.root != "" && b.fileId != ""
    ensures !b.managed || (!cls.purgeOnDelete && !cls.deleteRootDir) ==> c.s.files == old(c.s.files)
    ensures ok && b.managed && cls.purgeOnDelete && b.root != "" && b.fileId != ""
            && (forall p <- old(c.s.files.dirs) :: old(c.s.files.dirs)[p] == b.fileId ==> p == TrimSlashes(b.root)) ==>
              b.fileId !in c.s.files.dirs.Values
    ensures ok && !c.faulty && b.managed && cls.deleteRootDir && !cls.purgeOnDelete && b.root != "" && b.fileId != ""
            && b.name in old(c.s.buckets) ==>
              c.s.rootDeletes == old(c.s.rootDeletes) + [b.name]
    // A purge needs an absolute path other than the root of the filesystem; a root goes with its bucket only when
    // it is empty, and then it does.
    ensures b.managed && cls.purgeOnDelete && b.root != "" && b.fileId != ""
            && (b.root[0] != '/' || forall x <- b.root :: x == '/') ==>
              !ok && c.s == old(c.s)
    ensures c.s.rootDeletes != old(c.s.rootDeletes) ==>
              && b.fileId !in old(c.s.files.full)
              && forall p <- old(c.s.files.dirs) :: Within(p, TrimSlashes(b.root)) ==> p == TrimSlashes(b.root)
    ensures !c.faulty && b.managed && cls.deleteRootDir && !cls.purgeOnDelete && b.root != "" && b.fileId != ""
            && b.name in old(c.s.buckets) && TrimSlashes(old(c.s.buckets)[b.name]) == TrimSlashes(b.root)
            && TrimSlashes(b.root) in old(c.s.files.dirs) && old(c.s.files.dirs)[TrimSlashes(b.root)] == b.fileId
            && b.fileId !in old(c.s.files.full)
            && (forall p <- old(c.s.files.dirs) :: Within(p, TrimSlashes(b.root)) ==> p == TrimSlashes(b.root)) ==>
              ok
    // What it does, whichever leg it takes.
    ensures DeleteConfined(old(c.s), c.s, b, cls) && Timely(old(c.s.files), c.s.files, b.fileId, c.delay)
    ensures ok ==> b.name !in c.s.buckets
    ensures ok && Purges(b, cls) && Moored(old(c.s), b) ==> Gone(c.s.files, b.fileId)
    ensures !Admitted(old(c.s), b, cls) ==> !ok && c.s == old(c.s)
    ensures Admitted(old(c.s), b, cls) ==> Admitted(c.s, b, cls)
    ensures forall g :: SubmittedOnce(old(c.s).files, g) ==> SubmittedOnce(c.s.files, g)
    ensures !c.faulty && old(Patient(c, b.fileId, patience)) ==>
              (ok <==> Admitted(old(c.s), b, cls) && !Blocked(old(c.s), b, cls))
  {
    ghost var s0 := c.s;
    if Purges(b, cls) { BadPurgeRoot(s0, b); }
    if !Legacy(b) { EmptyRoot(s0, b); }
    if Legacy(b) {
      var fault := c.Fault();
      if fault { return false; }
      if b.name !in c.s.buckets { return true; }
      var r := RemoveBucket(c, b.name, false);
      return r.Done? || r.Missing?;
    }
    hide PurgeAdmitted, PurgeStuck, TrimSlashes, FileAt, Confined, SubmittedOnce;
    if Purges(b, cls) {
      ok := Purge(c, b, patience);
      PurgeIsDelete(s0, c.s, b, cls);
      forall g | SubmittedOnce(s0.files, g) ensures SubmittedOnce(c.s.files, g) {
        NeverTwice(s0.files, c.s.files, b.fileId, g);
      }
    } else {
      ok := Unregister(c, b, DropsRoot(b, cls));
      PlainIsDelete(s0, c.s, b, cls);
      PlainStaysOnce(s0, c.s, b, DropsRoot(b, cls));
    }
  }

  lemma PlainStaysOnce(s: S3, t: S3, b: BucketHandle, rootDir: bool)
    requires PlainConfined(s, t, b, rootDir)
    ensures forall g :: SubmittedOnce(s.files, g) ==> SubmittedOnce(t.files, g)
    ensures PlainAdmitted(s, b) ==> PlainAdmitted(t, b)
  {
    hide TrimSlashes;
  }

  // ---------------------------------------------------------------- retries

  /** The sidecar's retries: any number of attempts against a failing Core, then one against the same
      Core once it is healthy. The last succeeds exactly when nothing had been replaced to begin with
      and nothing blocks it, and over all attempts the tree was submitted at most once. */
  method DeleteWithRetries(c: Cluster, b: BucketHandle, cls: Class, patience: nat, attempts: nat)
    returns (ok: bool, healthy: Cluster)
    requires SubmittedOnce(c.s.files, b.fileId)
    requires Patient(c, b.fileId, patience)
    modifies c
    ensures SubmittedOnce(healthy.s.files, b.fileId)
    ensures ok <==> Admitted(old(c.s), b, cls) && !Blocked(c.s, b, cls)
    ensures ok ==> b.name !in healthy.s.buckets
    ensures !Admitted(old(c.s), b, cls) ==> healthy.s == old(c.s)
  {
    hide Admitted, Blocked, SubmittedOnce, DeleteConfined;
    for i := 0 to attempts
      invariant SubmittedOnce(c.s.files, b.fileId) && Patient(c, b.fileId, patience)
      invariant Admitted(old(c.s), b, cls) <==> Admitted(c.s, b, cls)
      invariant !Admitted(old(c.s), b, cls) ==> c.s == old(c.s)
    {
      var _ := DriverDeleteBucket(c, b, cls, patience);
    }
    healthy := new Cluster(c.s, false, c.delay);
    ok := DriverDeleteBucket(healthy, b, cls, patience);
  }
}
