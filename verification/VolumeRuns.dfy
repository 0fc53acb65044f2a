/** Runs of the volume protocol in which its guarantees end.

    Each run is given for every volume it can happen to. Two end in a state from which no retry of a
    deletion completes. The others need a volume in whose tree a second one lies; they show that each
    ownership result holds of all runs exactly when no requested volume is such an outer one, which is
    what `Safe` says. */
module VolumeRuns {
  import opened Paths
  import opened VolumeProtocol
  import opened VolumeOwnership
  import opened VolumeConvergence

  // ---------------------------------------------------------------- runs in pieces

  lemma {:induction false} RunAppend(s: State, a: seq<Event>, b: seq<Event>)
    ensures Run(s, a + b) == Run(Run(s, a), b)
    decreases |b|
  {
    if b == [] {
      assert a + b == a;
    } else {
      assert (a + b)[..|a + b| - 1] == a + b[..|b| - 1];
      RunAppend(s, a, b[..|b| - 1]);
    }
  }

  lemma RunOne(s: State, e: Event)
    ensures Run(s, [e]) == Step(s, e)
  {
    assert [e][..0] == [];
  }

  /** `n` fault-free calls of one process. */
  function Calls(p: Pid, n: nat): (events: seq<Event>)
    ensures |events| == n && forall i | 0 <= i < n :: events[i] == Call(p, true, Ok)
  {
    seq(n, _ => Call(p, true, Ok))
  }

  lemma RunCall(s: State, p: Pid, n: nat)
    requires n > 0
    ensures Run(s, Calls(p, n)) == Run(Step(s, Call(p, true, Ok)), Calls(p, n - 1))
  {
    assert Calls(p, n) == [Call(p, true, Ok)] + Calls(p, n - 1);
    RunAppend(s, [Call(p, true, Ok)], Calls(p, n - 1));
    RunOne(s, Call(p, true, Ok));
  }

  // ---------------------------------------------------------------- a create and a deletion left alone

  function With(s: State, p: Pid, x: Process): State {
    s.(procs := s.procs[p := x])
  }

  lemma CreateMoves(s: State, p: Pid, o: Options, pc: CreatePc, n: nat)
    requires n > 0 && !CreateCall(s.core, o, pc, true, Ok).1.Created?
    ensures var (c', pc') := CreateCall(s.core, o, pc, true, Ok);
            Run(With(s, p, Creating(o, pc)), Calls(p, n))
                == Run(With(s.(core := c'), p, Creating(o, pc')), Calls(p, n - 1))
  {
    RunCall(With(s, p, Creating(o, pc)), p, n);
    var (c', pc') := CreateCall(s.core, o, pc, true, Ok);
    hide CreateCall, Run;
    assert s.procs[p := Creating(o, pc)][p := Creating(o, pc')] == s.procs[p := Creating(o, pc')];
    assert Step(With(s, p, Creating(o, pc)), Call(p, true, Ok)) == With(s.(core := c'), p, Creating(o, pc'));
  }

  lemma DeleteMoves(s: State, p: Pid, h: Handle, pc: DeletePc, n: nat)
    requires n > 0
    ensures var (c', pc') := DeleteCall(s.core, h, pc, true, Ok);
            Run(With(s, p, Deleting(h, pc)), Calls(p, n))
                == Run(With(s.(core := c'), p, Deleting(h, pc')), Calls(p, n - 1))
  {
    RunCall(With(s, p, Deleting(h, pc)), p, n);
    var (c', pc') := DeleteCall(s.core, h, pc, true, Ok);
    hide DeleteCall, Run;
    assert s.procs[p := Deleting(h, pc)][p := Deleting(h, pc')] == s.procs[p := Deleting(h, pc')];
    assert Step(With(s, p, Deleting(h, pc)), Call(p, true, Ok)) == With(s.(core := c'), p, Deleting(h, pc'));
  }

  /** Up to the last read. */
  function NearlyCreateEvents(p: Pid, o: Options): seq<Event> {
    [StartCreate(p, o)] + Calls(p, 6)
  }

  function CreateEvents(p: Pid, o: Options): seq<Event> {
    NearlyCreateEvents(p, o) + [Call(p, true, Ok)]
  }

  /** What a create makes of Core where the name is free, and the handle it returns. */
  function Made(c: Core, o: Options): Core {
    AddResource(EnsureDirectory(c, o.spec.path).0, o)
  }

  function NewHandle(c: Core, spec: Spec): Handle {
    Handle(EnsureDirectory(c, spec.path).1, c.nextRes, spec)
  }

  lemma MadeIsManaged(c: Core, o: Options)
    ensures var c' := Made(c, o);
            && o.spec.path in c'.dirs && c'.dirs[o.spec.path] == NewHandle(c, o.spec).did
            && Carries(c', c.nextRes, Managed(o.spec)) && SameTarget(c'.res[c.nextRes], o.spec)
  {
  }

  lemma MadeIs(c: Core, o: Options)
    ensures var c' := Made(c, o);
            && c'.res == c.res[c.nextRes := Resource(o.spec.key, o.spec.path, Managed(o.spec), o.settings, 0)]
            && c'.names == c.names[o.spec.key := c.nextRes] && c'.jobs == c.jobs
            && c'.dirs == if o.spec.path in c.dirs then c.dirs else c.dirs[o.spec.path := c.nextDir]
  {
  }

  lemma ClaimLeftAlone(s: State, p: Pid, o: Options, n: nat)
    requires o.spec.key !in s.core.names
    ensures var h := NewHandle(s.core, o.spec);
            Run(With(s, p, Creating(o, Preflight)), Calls(p, n + 4))
            == Run(With(s.(core := Made(s.core, o)), p, Creating(o, Configure(h.did, h.rid))), Calls(p, n))
  {
    hide Run;
    var c, d := s.core, NewHandle(s.core, o.spec).did;
    var s1 := s.(core := EnsureDirectory(c, o.spec.path).0);
    CreateMoves(s, p, o, Preflight, n + 4);
    CreateMoves(s, p, o, MakeDir, n + 3);
    CreateMoves(s1, p, o, ClaimRead(d), n + 2);
    CreateMoves(s1, p, o, ClaimPost(d), n + 1);
  }

  lemma ChecksLeftAlone(s: State, p: Pid, o: Options, d: DirId, r: ResId)
    requires o.spec.path in s.core.dirs && s.core.dirs[o.spec.path] == d
    ensures Run(With(s, p, Creating(o, Configure(d, r))), Calls(p, 2)) == With(s, p, Creating(o, CheckResource(d, r)))
  {
    CreateMoves(s, p, o, Configure(d, r), 2);
    CreateMoves(s, p, o, CheckDir(d, r), 1);
    assert Calls(p, 0) == [];
  }

  lemma Started(s: State, p: Pid, o: Options, n: nat)
    requires p !in s.procs
    ensures Run(s, [StartCreate(p, o)] + Calls(p, n)) == Run(With(s, p, Creating(o, Preflight)), Calls(p, n))
  {
    RunAppend(s, [StartCreate(p, o)], Calls(p, n));
    RunOne(s, StartCreate(p, o));
    hide Run;
  }

  lemma NearlyCreated(s: State, p: Pid, o: Options)
    requires p !in s.procs && o.spec.key !in s.core.names
    ensures var h := NewHandle(s.core, o.spec);
            Run(s, NearlyCreateEvents(p, o))
            == With(s.(core := Made(s.core, o)), p, Creating(o, CheckResource(h.did, h.rid)))
  {
    var h := NewHandle(s.core, o.spec);
    Started(s, p, o, 6);
    hide Run, CreateCall, With;
    ClaimLeftAlone(s, p, o, 2);
    MadeIsManaged(s.core, o);
    hide Made;
    ChecksLeftAlone(s.(core := Made(s.core, o)), p, o, h.did, h.rid);
  }

  /** The last read of a create, which issues the handle whether or not the directory still is there. */
  lemma LastRead(s: State, p: Pid, o: Options, d: DirId, r: ResId)
    requires Carries(s.core, r, Managed(o.spec)) && SameTarget(s.core.res[r], o.spec)
    ensures var h := Handle(d, r, o.spec);
            Step(With(s, p, Creating(o, CheckResource(d, r))), Call(p, true, Ok))
            == With(s, p, Creating(o, Created(h))).(issued := s.issued + {h})
  {
    var s1, h := With(s, p, Creating(o, CheckResource(d, r))), Handle(d, r, o.spec);
    assert CreateCall(s.core, o, CheckResource(d, r), true, Ok) == (s.core, Created(h));
    hide CreateCall;
    assert s1.procs[p := Creating(o, Created(h))] == s.procs[p := Creating(o, Created(h))];
  }

  /** Where the name is free, a create that is left alone makes the volume and returns its handle. */
  lemma CreateLeftAlone(s: State, p: Pid, o: Options)
    requires p !in s.procs && o.spec.key !in s.core.names
    ensures var h := NewHandle(s.core, o.spec);
            Run(s, CreateEvents(p, o))
            == With(s.(core := Made(s.core, o)), p, Creating(o, Created(h))).(issued := s.issued + {h})
    ensures var c, now := s.core, Run(s, CreateEvents(p, o)).core;
            && now.res == c.res[c.nextRes := Resource(o.spec.key, o.spec.path, Managed(o.spec), o.settings, 0)]
            && now.names == c.names[o.spec.key := c.nextRes] && now.jobs == c.jobs
            && now.dirs == if o.spec.path in c.dirs then c.dirs else c.dirs[o.spec.path := c.nextDir]
  {
    var h := NewHandle(s.core, o.spec);
    MadeIs(s.core, o);
    RunAppend(s, NearlyCreateEvents(p, o), [Call(p, true, Ok)]);
    NearlyCreated(s, p, o);
    MadeIsManaged(s.core, o);
    hide Made, CreateCall;
    RunOne(Run(s, NearlyCreateEvents(p, o)), Call(p, true, Ok));
    LastRead(s.(core := Made(s.core, o)), p, o, h.did, h.rid);
    hide Run, Step;
  }

  function ReclaimEvents(p: Pid, o: Options): seq<Event> {
    [StartCreate(p, o)] + Calls(p, 5) + [Call(p, true, Ok)]
  }

  /** Where a managed resource has lost its directory, a create of the same volume gives it a new one. */
  lemma ReclaimLeftAlone(s: State, p: Pid, o: Options, r: ResId)
    requires p !in s.procs && o.spec.path !in s.core.dirs
    requires o.spec.key in s.core.names && s.core.names[o.spec.key] == r && Carries(s.core, r, Managed(o.spec))
    requires SameTarget(s.core.res[r], o.spec) && s.core.res[r].settings == o.settings
    ensures var h := Handle(s.core.nextDir, r, o.spec);
            Run(s, ReclaimEvents(p, o))
            == With(s.(core := EnsureDirectory(s.core, o.spec.path).0), p,
                Creating(o, Created(h))).(issued := s.issued + {h})
  {
    var d := s.core.nextDir;
    var s1 := s.(core := EnsureDirectory(s.core, o.spec.path).0);
    RunAppend(s, [StartCreate(p, o)] + Calls(p, 5), [Call(p, true, Ok)]);
    Started(s, p, o, 5);
    RunOne(With(s1, p, Creating(o, CheckResource(d, r))), Call(p, true, Ok));
    hide Run, CreateCall;
    ReclaimMoves(s, p, o, r);
    LastRead(s1, p, o, d, r);
    hide Step;
  }

  lemma ReclaimMoves(s: State, p: Pid, o: Options, r: ResId)
    requires o.spec.path !in s.core.dirs
    requires o.spec.key in s.core.names && s.core.names[o.spec.key] == r && Carries(s.core, r, Managed(o.spec))
    requires SameTarget(s.core.res[r], o.spec) && s.core.res[r].settings == o.settings
    ensures Run(With(s, p, Creating(o, Preflight)), Calls(p, 5))
            == With(s.(core := EnsureDirectory(s.core, o.spec.path).0), p,
                Creating(o, CheckResource(s.core.nextDir, r)))
  {
    var d := s.core.nextDir;
    var s1 := s.(core := EnsureDirectory(s.core, o.spec.path).0);
    hide Run;
    CreateMoves(s, p, o, Preflight, 5);
    CreateMoves(s, p, o, MakeDir, 4);
    CreateMoves(s1, p, o, ClaimRead(d), 3);
    ChecksLeftAlone(s1, p, o, d, r);
  }

  /** Up to the point where the tree-delete has been submitted. */
  function DeleteEvents(p: Pid, h: Handle): seq<Event> {
    [StartDelete(p, h)] + Calls(p, 5)
  }

  function Submitted(c: Core, h: Handle): Core
    requires h.rid in c.res
  {
    Entomb(c, h).(jobs := c.jobs[h.did := Job(h, false)])
  }

  lemma SubmittedIs(c: Core, h: Handle)
    requires h.rid in c.res
    ensures var now := Submitted(c, h);
            && now.jobs == c.jobs[h.did := Job(h, false)] && now.dirs == c.dirs && now.names == c.names
            && now.res == c.res[h.rid := Resource(c.res[h.rid].key, c.res[h.rid].path, Tombstone(h),
                                                  c.res[h.rid].settings, c.res[h.rid].version + 1)]
  {
  }

  lemma PrepareLeftAlone(s: State, p: Pid, h: Handle)
    requires h.spec.deleteData && Intact(s.core, h)
    ensures Run(With(s, p, Deleting(h, Attributes)), Calls(p, 5))
            == Run(With(s.(core := Entomb(s.core, h)), p, Deleting(h, Inspect)), Calls(p, 2))
  {
    hide Run;
    DeleteMoves(s, p, h, Attributes, 5);
    DeleteMoves(s, p, h, PrepareRead(false, 0), 4);
    DeleteMoves(s, p, h, PreparePatch(false, 0, s.core.res[h.rid].version), 3);
  }

  lemma SubmitLeftAlone(s: State, p: Pid, h: Handle)
    requires Alive(s.core, h.did) && h.did !in s.core.jobs
    ensures Run(With(s, p, Deleting(h, Inspect)), Calls(p, 2))
            == With(s.(core := s.core.(jobs := s.core.jobs[h.did := Job(h, false)])), p, Deleting(h, Poll))
  {
    DeleteMoves(s, p, h, Inspect, 2);
    DeleteMoves(s, p, h, Submit, 1);
    assert Calls(p, 0) == [];
  }

  lemma DeleteLeftAlone(s: State, p: Pid, h: Handle)
    requires p !in s.procs && h in s.issued && h.spec.deleteData && Intact(s.core, h)
    requires Alive(s.core, h.did) && h.did !in s.core.jobs
    ensures Run(s, DeleteEvents(p, h))
            == With(s, p, Deleting(h, Poll)).(core := Submitted(s.core, h), requested := s.requested + {h})
    ensures var c, now := s.core, Run(s, DeleteEvents(p, h)).core;
            && now.jobs == c.jobs[h.did := Job(h, false)] && now.dirs == c.dirs && now.names == c.names
            && now.res == c.res[h.rid := Resource(c.res[h.rid].key, c.res[h.rid].path, Tombstone(h),
                                                  c.res[h.rid].settings, c.res[h.rid].version + 1)]
  {
    assert h.rid in s.core.res;
    SubmittedIs(s.core, h);
    var s1 := s.(requested := s.requested + {h});
    RunAppend(s, [StartDelete(p, h)], Calls(p, 5));
    RunOne(s, StartDelete(p, h));
    hide Run, Intact, Step;
    PrepareLeftAlone(s1, p, h);
    SubmitLeftAlone(s1.(core := Entomb(s.core, h)), p, h);
  }

  // ---------------------------------------------------------------- from an empty Core

  function Nothing(): State {
    State(Core(map[], map[], 0, map[], map[], 0, map[]), map[], {}, {})
  }

  /** The volume of the only create so far. */
  function Volume(o: Options): Handle {
    NewHandle(Nothing().core, o.spec)
  }

  lemma VolumeMade(o: Options)
    ensures Run(Nothing(), CreateEvents(0, o))
            == State(Made(Nothing().core, o), map[0 := Creating(o, Created(Volume(o)))], {Volume(o)}, {})
    ensures Intact(Made(Nothing().core, o), Volume(o)) && Alive(Made(Nothing().core, o), 0)
    ensures Made(Nothing().core, o).jobs == map[] && Made(Nothing().core, o).dirs == map[o.spec.path := 0]
  {
    CreateLeftAlone(Nothing(), 0, o);
    hide Run;
  }

  // ---------------------------------------------------------------- an aborted tree-delete

  function AbortingRun(o: Options): seq<Event> {
    CreateEvents(0, o) + DeleteEvents(1, Volume(o)) + [JobAborts(0)]
  }

  /** A create, a deletion, and the tree-delete stops with an error: no retry of the deletion completes. */
  lemma AbortedDeletionIsStuck(o: Options)
    requires o.spec.deleteData
    ensures Initial(Nothing())
    ensures var s := Run(Nothing(), AbortingRun(o));
            && Volume(o) in s.requested && DeletionAborted(s.core, Volume(o))
            && Retry(s.core, Volume(o), DeleteStart(Volume(o)), RETRY_CALLS) != Deleted
  {
    var h := Volume(o);
    var a, b := CreateEvents(0, o), DeleteEvents(1, h);
    VolumeMade(o);
    DeleteLeftAlone(Run(Nothing(), a), 1, h);
    RunAppend(Nothing(), a, b);
    RunAppend(Nothing(), a + b, [JobAborts(0)]);
    RunOne(Run(Nothing(), a + b), JobAborts(0));
    hide Run, Retry, Made, RETRY_CALLS;
    DeleteConvergesIff(Nothing(), AbortingRun(o), h);
  }

  // ---------------------------------------------------------------- a path that is taken over

  /** Process 1 has passed its preflight when process 2 deletes the tree and crashes before removing the
      resource; then process 1 goes on and re-creates the directory. */
  function ReplacingRun(o: Options): seq<Event> {
    CreateEvents(0, o) + [StartCreate(1, o), Call(1, true, Ok)] + DeleteEvents(2, Volume(o))
    + Takeover(o)
  }

  /** After this run the volume is entombed and its data gone, another directory holds its path, and no
      retry of its deletion completes. */
  lemma ReplacedDeletionIsStuck(o: Options)
    requires o.spec.deleteData
    ensures Initial(Nothing())
    ensures var s := Run(Nothing(), ReplacingRun(o));
            && Volume(o) in s.requested && Entombed(s.core, Volume(o)) && !Alive(s.core, Volume(o).did)
            && PathReplaced(s.core, Volume(o))
            && Retry(s.core, Volume(o), DeleteStart(Volume(o)), RETRY_CALLS) != Deleted
  {
    var h := Volume(o);
    var a, b, c := CreateEvents(0, o), [StartCreate(1, o), Call(1, true, Ok)], DeleteEvents(2, h);
    var d := Takeover(o);
    VolumeMade(o);
    PassesPreflight(Run(Nothing(), a), 1, o);
    DeleteLeftAlone(Run(Run(Nothing(), a), b), 2, h);
    TakenOver(Run(Run(Run(Nothing(), a), b), c), o);
    RunAppend(Nothing(), a, b);
    RunAppend(Nothing(), a + b, c);
    RunAppend(Nothing(), a + b + c, d);
    hide Run, Retry, Made, RETRY_CALLS, Takeover;
    assert ReplacingRun(o) == a + b + c + d;
    DeleteConvergesIff(Nothing(), ReplacingRun(o), h);
  }

  lemma PassesPreflight(s: State, p: Pid, o: Options)
    requires p !in s.procs
    ensures Run(s, [StartCreate(p, o), Call(p, true, Ok)]) == With(s, p, Creating(o, MakeDir))
  {
    RunAppend(s, [StartCreate(p, o)], [Call(p, true, Ok)]);
    RunOne(s, StartCreate(p, o));
    RunOne(With(s, p, Creating(o, Preflight)), Call(p, true, Ok));
    assert [StartCreate(p, o)] + [Call(p, true, Ok)] == [StartCreate(p, o), Call(p, true, Ok)];
    hide Run;
    assert s.procs[p := Creating(o, Preflight)][p := Creating(o, MakeDir)] == s.procs[p := Creating(o, MakeDir)];
  }

  function Takeover(o: Options): seq<Event> {
    [TreeShrinks(0, o.spec.path), JobRecordGone(0), Crash(2), Call(1, true, Ok)]
  }

  lemma TakenOver(s: State, o: Options)
    requires 1 in s.procs && s.procs[1] == Creating(o, MakeDir)
    requires s.core.dirs == map[o.spec.path := 0] && 0 in s.core.born && s.core.born[0] == o.spec.path
    requires 0 in s.core.jobs && !s.core.jobs[0].aborted && s.core.nextDir == 1
    ensures var t := Run(s, Takeover(o));
            t.core.dirs == map[o.spec.path := 1] && t.core.res == s.core.res
                && t.core.born == s.core.born[1 := o.spec.path]
            && t.issued == s.issued && t.requested == s.requested
  {
    var e0, e1, e2, e3 := TreeShrinks(0, o.spec.path), JobRecordGone(0), Crash(2), Call(1, true, Ok);
    var s1 := Step(s, e0);
    assert s1.core == RemoveTree(s.core, o.spec.path) && s1.core.dirs == map[];
    var s2 := Step(s1, e1);
    assert s2.core == s1.core.(jobs := s1.core.jobs - {0});
    var s3 := Step(s2, e2);
    var s4 := Step(s3, e3);
    RunOne(s, e0);
    RunOne(s1, e1);
    RunOne(s2, e2);
    RunOne(s3, e3);
    RunAppend(s, [e0], [e1]);
    RunAppend(s, [e0] + [e1], [e2]);
    RunAppend(s, [e0] + [e1] + [e2], [e3]);
    assert Takeover(o) == [e0] + [e1] + [e2] + [e3];
    hide Run;
  }

  // ---------------------------------------------------------------- a volume in the tree of another one

  /** The outer volume deletes its data; the inner one lies below it or at the same path. */
  predicate Nested(outer: Options, inner: Options) {
    outer.spec.deleteData && outer.spec.key != inner.spec.key && Within(inner.spec.path, outer.spec.path)
  }

  /** A volume whose base path is another volume's directory is nested in it. */
  lemma BasePathNests(outer: Options, inner: Options, protocol: string, name: string)
    requires outer.spec.deleteData && outer.spec.key != inner.spec.key
    requires inner.spec.path == outer.spec.path + "/" + protocol + "/" + name
    ensures Nested(outer, inner)
  {
    var rest := protocol + "/" + name;
    JoinedIsWithin(outer.spec.path, rest);
    assert inner.spec.path == outer.spec.path + "/" + rest;
  }

  /** The inner volume, made right after the outer one. */
  function Inner(outer: Options, inner: Options): Handle {
    NewHandle(Made(Nothing().core, outer), inner.spec)
  }

  function BothMade(outer: Options, inner: Options): Core {
    Made(Made(Nothing().core, outer), inner)
  }

  lemma BothMadeIs(outer: Options, inner: Options)
    requires Nested(outer, inner)
    ensures var c, o, i := BothMade(outer, inner), Volume(outer), Inner(outer, inner);
            && inner.spec.key !in Made(Nothing().core, outer).names && c.jobs == map[]
            && Intact(c, o) && Alive(c, o.did) && Intact(c, i) && o.did == 0 && c.born[0] == outer.spec.path
            && i.rid != o.rid && i.did < c.nextDir && (forall p <- c.dirs :: Within(p, outer.spec.path))
            && inner.spec.key in c.names && c.names[inner.spec.key] == i.rid && c.res[i.rid].settings == inner.settings
  {
    assert Within(outer.spec.path, outer.spec.path);
    hide Within;
  }

  function BothCreated(outer: Options, inner: Options): seq<Event> {
    CreateEvents(0, outer) + CreateEvents(1, inner)
  }

  lemma BothVolumesMade(outer: Options, inner: Options)
    requires Nested(outer, inner)
    ensures Run(Nothing(), BothCreated(outer, inner))
            == State(BothMade(outer, inner),
                     map[0 := Creating(outer, Created(Volume(outer))),
                         1 := Creating(inner, Created(Inner(outer, inner)))],
                     {Volume(outer), Inner(outer, inner)}, {})
  {
    BothMadeIs(outer, inner);
    VolumeMade(outer);
    RunAppend(Nothing(), CreateEvents(0, outer), CreateEvents(1, inner));
    CreateLeftAlone(Run(Nothing(), CreateEvents(0, outer)), 1, inner);
    hide Run, Made, CreateEvents;
  }

  /** Core after the outer volume's tree is gone. */
  function OuterGone(c: Core, outer: Options): Core
    requires Volume(outer).rid in c.res
  {
    RemoveTree(Submitted(c, Volume(outer)), outer.spec.path)
  }

  function DeleteOuter(outer: Options): seq<Event> {
    DeleteEvents(2, Volume(outer)) + [TreeShrinks(0, outer.spec.path)]
  }

  lemma OuterDeleted(s: State, outer: Options, inner: Options)
    requires Nested(outer, inner) && s.core == BothMade(outer, inner) && Volume(outer) in s.issued && 2 !in s.procs
    ensures Run(s, DeleteOuter(outer))
            == With(s, 2, Deleting(Volume(outer), Poll))
               .(core := OuterGone(s.core, outer), requested := s.requested + {Volume(outer)})
  {
    BothMadeIs(outer, inner);
    RunAppend(s, DeleteEvents(2, Volume(outer)), [TreeShrinks(0, outer.spec.path)]);
    hide Made, BothMade;
    DeleteLeftAlone(s, 2, Volume(outer));
    RunOne(Run(s, DeleteEvents(2, Volume(outer))), TreeShrinks(0, outer.spec.path));
    hide Run;
  }

  lemma InnerAfter(outer: Options, inner: Options)
    requires Nested(outer, inner)
    ensures var c, i := OuterGone(BothMade(outer, inner), outer), Inner(outer, inner);
            && c.dirs == map[] && c.jobs.Keys == {0} && 0 < c.nextDir && i.did < c.nextDir
            && inner.spec.key in c.names && c.names[inner.spec.key] == i.rid && Carries(c, i.rid, Managed(inner.spec))
            && SameTarget(c.res[i.rid], inner.spec) && c.res[i.rid].settings == inner.settings
  {
    BothMadeIs(outer, inner);
    hide Within, BothMade, Made;
  }

  // ---------------------------------------------------------------- what happens to the inner volume

  function LosingRun(outer: Options, inner: Options): seq<Event> {
    BothCreated(outer, inner) + DeleteOuter(outer)
  }

  /** Deleting the outer volume takes the inner one, which nobody asked to delete. */
  lemma NestedVolumeIsLost(outer: Options, inner: Options)
    requires Nested(outer, inner)
    ensures var s, i := Run(Nothing(), LosingRun(outer, inner)), Inner(outer, inner);
            && s.core == OuterGone(BothMade(outer, inner), outer) && s.issued == {Volume(outer), i}
            && s.requested == {Volume(outer)}
            && i !in s.requested && !Intact(s.core, i) && s.procs.Keys == {0, 1, 2}
  {
    BothVolumesMade(outer, inner);
    BothMadeIs(outer, inner);
    InnerAfter(outer, inner);
    RunAppend(Nothing(), BothCreated(outer, inner), DeleteOuter(outer));
    OuterDeleted(Run(Nothing(), BothCreated(outer, inner)), outer, inner);
    hide Run, BothMade, OuterGone, BothCreated, DeleteOuter, Made;
  }

  function StaleRun(outer: Options, inner: Options): seq<Event> {
    CreateEvents(0, outer) + NearlyCreateEvents(1, inner) + DeleteOuter(outer)
  }

  lemma StaleRunIs(outer: Options, inner: Options)
    requires Nested(outer, inner)
    ensures var s, i := Run(Nothing(), StaleRun(outer, inner)), Inner(outer, inner);
            && s.core == OuterGone(BothMade(outer, inner), outer) && s.issued == {Volume(outer)}
            && 1 in s.procs && s.procs[1] == Creating(inner, CheckResource(i.did, i.rid))
  {
    var a, b := CreateEvents(0, outer), NearlyCreateEvents(1, inner);
    BothMadeIs(outer, inner);
    VolumeMade(outer);
    RunAppend(Nothing(), a, b);
    RunAppend(Nothing(), a + b, DeleteOuter(outer));
    hide Run, Made, CreateEvents, NearlyCreateEvents, DeleteOuter, OuterGone;
    NearlyCreated(Run(Nothing(), a), 1, inner);
    OuterDeleted(Run(Nothing(), a + b), outer, inner);
  }

  /** If the outer volume is deleted just before the inner one's create returns, the create returns a volume
      without a directory. */
  lemma NestedCreateIsStale(outer: Options, inner: Options)
    requires Nested(outer, inner)
    ensures var s, i := Run(Nothing(), StaleRun(outer, inner)), Inner(outer, inner);
            i !in s.issued && i in Step(s, Call(1, true, Ok)).issued && !Intact(s.core, i)
  {
    var i, s := Inner(outer, inner), Run(Nothing(), StaleRun(outer, inner));
    StaleRunIs(outer, inner);
    InnerAfter(outer, inner);
    assert i != Volume(outer) by { BothMadeIs(outer, inner); }
    hide Run, OuterGone, BothMade, Made, CreateCall, StaleRun;
    assert With(s, 1, s.procs[1]) == s by { assert s.procs[1 := s.procs[1]] == s.procs; }
    LastRead(s, 1, inner, i.did, i.rid);
    hide Step;
  }

  function ReclaimingRun(outer: Options, inner: Options): seq<Event> {
    LosingRun(outer, inner) + ReclaimEvents(3, inner)
  }

  function Reclaimed(outer: Options, inner: Options): Handle {
    Handle(OuterGone(BothMade(outer, inner), outer).nextDir, Inner(outer, inner).rid, inner.spec)
  }

  lemma ReclaimedIs(outer: Options, inner: Options)
    requires Nested(outer, inner)
    ensures var c, j := EnsureDirectory(OuterGone(BothMade(outer, inner), outer), inner.spec.path).0,
            Reclaimed(outer, inner);
            j != Inner(outer, inner) && Intact(c, j) && Alive(c, j.did) && j.did !in c.jobs
  {
    InnerAfter(outer, inner);
    hide OuterGone, BothMade, Made, Within;
  }

  /** Creating the lost volume again issues a second handle for its resource. */
  lemma NestedVolumeIsReissued(outer: Options, inner: Options)
    requires Nested(outer, inner)
    ensures var s, i, j := Run(Nothing(), ReclaimingRun(outer, inner)), Inner(outer, inner), Reclaimed(outer, inner);
            && i in s.issued && j in s.issued && i != j && Intact(s.core, j)
            && Alive(s.core, j.did) && j.did !in s.core.jobs && 4 !in s.procs
  {
    var s1 := Run(Nothing(), LosingRun(outer, inner));
    NestedVolumeIsLost(outer, inner);
    InnerAfter(outer, inner);
    ReclaimedIs(outer, inner);
    RunAppend(Nothing(), LosingRun(outer, inner), ReclaimEvents(3, inner));
    hide Run, OuterGone, LosingRun, ReclaimEvents, Made, BothMade, EnsureDirectory, Intact, Alive;
    ReclaimLeftAlone(s1, 3, inner, Inner(outer, inner).rid);
    assert 4 !in s1.procs.Keys && s1.procs.Keys == {0, 1, 2};
  }

  function OrphaningRun(outer: Options, inner: Options): seq<Event> {
    ReclaimingRun(outer, inner) + DeleteEvents(4, Reclaimed(outer, inner))
  }

  /** Deleting by the second handle leaves the first one's deletion stuck. */
  lemma NestedVolumeIsOrphaned(outer: Options, inner: Options)
    requires Nested(outer, inner) && inner.spec.deleteData
    ensures var s, i := Run(Nothing(), OrphaningRun(outer, inner)), Inner(outer, inner);
            i in s.issued && Orphaned(s.core, i)
  {
    var j := Reclaimed(outer, inner);
    NestedVolumeIsReissued(outer, inner);
    RunAppend(Nothing(), ReclaimingRun(outer, inner), DeleteEvents(4, j));
    hide Run, ReclaimingRun, DeleteEvents, OuterGone, BothMade, Made;
    DeleteLeftAlone(Run(Nothing(), ReclaimingRun(outer, inner)), 4, j);
  }

  // ---------------------------------------------------------------- exactly when the guarantees hold

  /** A specification that is not safe has an outer volume. */
  lemma UnsafeIsNested(specs: set<Spec>, x: Spec) returns (outer: Options, inner: Options)
    requires !Safe(specs, x)
    ensures Nested(outer, inner) && inner.spec == x && outer.spec in specs
  {
    var y :| y in specs && y.deleteData && Within(x.path, y.path) && y.key != x.key;
    outer, inner := Options(y, ""), Options(x, "");
  }

  lemma AskedAppend(specs: set<Spec>, a: seq<Event>, b: seq<Event>)
    requires Asked(specs, a) && Asked(specs, b)
    ensures Asked(specs, a + b)
  {
  }

  lemma PiecesAsked(specs: set<Spec>, outer: Options, inner: Options, h: Handle)
    requires outer.spec in specs && inner.spec in specs
    ensures Asked(specs, CreateEvents(0, outer)) && Asked(specs, CreateEvents(1, inner))
    ensures Asked(specs, NearlyCreateEvents(1, inner)) && Asked(specs, ReclaimEvents(3, inner))
    ensures Asked(specs, DeleteOuter(outer)) && Asked(specs, DeleteEvents(4, h))
  {
  }

  lemma RunsAsked(specs: set<Spec>, outer: Options, inner: Options)
    requires outer.spec in specs && inner.spec in specs
    ensures Asked(specs, BothCreated(outer, inner)) && Asked(specs, LosingRun(outer, inner))
    ensures Asked(specs, StaleRun(outer, inner)) && Asked(specs, ReclaimingRun(outer, inner))
    ensures Asked(specs, OrphaningRun(outer, inner))
  {
    PiecesAsked(specs, outer, inner, Reclaimed(outer, inner));
    hide Asked, CreateEvents, NearlyCreateEvents, ReclaimEvents, DeleteOuter, DeleteEvents, Reclaimed;
    AskedAppend(specs, CreateEvents(0, outer), CreateEvents(1, inner));
    AskedAppend(specs, BothCreated(outer, inner), DeleteOuter(outer));
    AskedAppend(specs, CreateEvents(0, outer), NearlyCreateEvents(1, inner));
    AskedAppend(specs, CreateEvents(0, outer) + NearlyCreateEvents(1, inner), DeleteOuter(outer));
    AskedAppend(specs, LosingRun(outer, inner), ReclaimEvents(3, inner));
    AskedAppend(specs, ReclaimingRun(outer, inner), DeleteEvents(4, Reclaimed(outer, inner)));
  }

  /** Reached by some run whose creates are all for `specs`. */
  ghost predicate Reachable(specs: set<Spec>, t: State) {
    exists s, events :: Initial(s) && Asked(specs, events) && t == Run(s, events)
  }

  lemma Reached(specs: set<Spec>, events: seq<Event>)
    requires Asked(specs, events)
    ensures Reachable(specs, Run(Nothing(), events))
  {
    assert Initial(Nothing());
  }

  /** A volume nobody asked to delete is intact, whatever else ran, if and only if its specification is safe. */
  lemma NothingIsLostIff(specs: set<Spec>, x: Spec)
    requires x in specs
    ensures (forall s, h | Reachable(specs, s) && h in s.issued && h !in s.requested && h.spec == x ::
            Intact(s.core, h))
            <==> Safe(specs, x)
  {
    if Safe(specs, x) {
      forall t, h | Reachable(specs, t) && h in t.issued && h !in t.requested && h.spec == x ensures Intact(t.core, h) {
        var s, events :| Initial(s) && Asked(specs, events) && t == Run(s, events);
        NoLossWithoutRequest(s, specs, events, h);
      }
    } else {
      var outer, inner := UnsafeIsNested(specs, x);
      RunsAsked(specs, outer, inner);
      Reached(specs, LosingRun(outer, inner));
      NestedVolumeIsLost(outer, inner);
      hide Run, Asked, LosingRun, Reachable, Intact;
    }
  }

  /** Whatever a create returns is intact at that instant if and only if its specification is safe. */
  lemma CreatesReturnLiveVolumesIff(specs: set<Spec>, x: Spec)
    requires x in specs
    ensures (forall s, e, h | Reachable(specs, s) && h !in s.issued && h in Step(s, e).issued && h.spec == x ::
            Intact(s.core, h))
            <==> Safe(specs, x)
  {
    if Safe(specs, x) {
      forall t, e, h | Reachable(specs, t) && h !in t.issued && h in Step(t, e).issued && h.spec == x
          ensures Intact(t.core, h) {
        var s, events :| Initial(s) && Asked(specs, events) && t == Run(s, events);
        CreateReturnsLiveVolume(s, specs, events, e, h);
      }
    } else {
      var outer, inner := UnsafeIsNested(specs, x);
      RunsAsked(specs, outer, inner);
      Reached(specs, StaleRun(outer, inner));
      NestedCreateIsStale(outer, inner);
      hide Run, Asked, StaleRun, Reachable, Intact, Step;
    }
  }

  /** All creates that return one resource agree on its directory if and only if its specification is safe. */
  lemma CreatesAgreeIff(specs: set<Spec>, x: Spec)
    requires x in specs
    ensures (forall s, h1, h2 | Reachable(specs, s) && h1 in s.issued && h2 in s.issued && h1.rid == h2.rid
            && h1.spec == x :: h1 == h2)
            <==> Safe(specs, x)
  {
    if Safe(specs, x) {
      forall t, h1, h2 | Reachable(specs, t) && h1 in t.issued && h2 in t.issued && h1.rid == h2.rid && h1.spec == x
        ensures h1 == h2
      {
        var s, events :| Initial(s) && Asked(specs, events) && t == Run(s, events);
        CreatesAgree(s, specs, events, h1, h2);
      }
    } else {
      var outer, inner := UnsafeIsNested(specs, x);
      RunsAsked(specs, outer, inner);
      Reached(specs, ReclaimingRun(outer, inner));
      NestedVolumeIsReissued(outer, inner);
      hide Run, Asked, ReclaimingRun, Reachable, Intact;
    }
  }

  /** Both resources are there, and deleting the second volume would take the first one's directory. */
  predicate InTreeOf(c: Core, h1: Handle, h2: Handle) {
    h1.rid in c.res && h2.rid in c.res && h2.spec.deleteData && Within(h1.spec.path, h2.spec.path)
  }

  /** A live volume never lies in the tree of another live one that deletes its data if and only if its
      specification is safe. */
  lemma LiveVolumesAreDisjointIff(specs: set<Spec>, x: Spec)
    requires x in specs
    ensures (forall s, h1, h2 | Reachable(specs, s) && h1 in s.issued && h2 in s.issued && h1 != h2 && h1.spec == x ::
               !InTreeOf(s.core, h1, h2))
            <==> Safe(specs, x)
  {
    if Safe(specs, x) {
      forall t, h1, h2 | Reachable(specs, t) && h1 in t.issued && h2 in t.issued && h1 != h2 && h1.spec == x
        ensures !InTreeOf(t.core, h1, h2)
      {
        var s, events :| Initial(s) && Asked(specs, events) && t == Run(s, events);
        if InTreeOf(t.core, h1, h2) { LiveVolumesAreDisjoint(s, specs, events, h1, h2); }
      }
    } else {
      var outer, inner := UnsafeIsNested(specs, x);
      RunsAsked(specs, outer, inner);
      Reached(specs, BothCreated(outer, inner));
      BothVolumesMade(outer, inner);
      BothMadeIs(outer, inner);
      assert InTreeOf(BothMade(outer, inner), Inner(outer, inner), Volume(outer));
      hide Run, Asked, BothCreated, Reachable, BothMade, InTreeOf;
    }
  }

  /** No deletion of a volume is ever stuck on another handle's deletion if and only if the volume keeps its
      data or its specification is safe. */
  lemma NeverOrphanedIff(specs: set<Spec>, x: Spec)
    requires x in specs
    ensures (forall s, h | Reachable(specs, s) && h in s.issued && h.spec == x :: !Orphaned(s.core, h))
            <==> (x.deleteData ==> Safe(specs, x))
  {
    if x.deleteData ==> Safe(specs, x) {
      forall t, h | Reachable(specs, t) && h in t.issued && h.spec == x ensures !Orphaned(t.core, h) {
        var s, events :| Initial(s) && Asked(specs, events) && t == Run(s, events);
        SafeNeverOrphaned(s, specs, events, h);
      }
    } else {
      var outer, inner := UnsafeIsNested(specs, x);
      RunsAsked(specs, outer, inner);
      Reached(specs, OrphaningRun(outer, inner));
      NestedVolumeIsOrphaned(outer, inner);
      hide Run, Asked, OrphaningRun, Reachable, Orphaned;
    }
  }
}
