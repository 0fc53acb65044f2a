/** What a volume call makes of repetition, lost responses and version conflicts.

    Each result starts from any state whatever, follows one call with nothing else in between, and gives
    the whole state it ends in. */
module VolumeFaults {
  import opened VolumeProtocol
  import opened VolumeOwnership
  import opened VolumeRuns

  /** One call of a create with any outcome but issuing a handle, before any further events. */
  lemma CreateTurn(s: State, p: Pid, o: Options, pc: CreatePc, commit: bool, report: Report, rest: seq<Event>)
    requires !CreateCall(s.core, o, pc, commit, report).1.Created?
    ensures var (c', pc') := CreateCall(s.core, o, pc, commit, report);
            Run(With(s, p, Creating(o, pc)), [Call(p, commit, report)] + rest)
            == Run(With(s.(core := c'), p, Creating(o, pc')), rest)
  {
    var now := With(s, p, Creating(o, pc));
    RunAppend(now, [Call(p, commit, report)], rest);
    RunOne(now, Call(p, commit, report));
    var (c', pc') := CreateCall(s.core, o, pc, commit, report);
    hide CreateCall, Run;
    assert s.procs[p := Creating(o, pc)][p := Creating(o, pc')] == s.procs[p := Creating(o, pc')];
    assert Step(now, Call(p, commit, report)) == With(s.(core := c'), p, Creating(o, pc'));
  }

  /** One call of a deletion with any outcome, before any further events. */
  lemma DeleteTurn(s: State, p: Pid, h: Handle, pc: DeletePc, commit: bool, report: Report, rest: seq<Event>)
    ensures var (c', pc') := DeleteCall(s.core, h, pc, commit, report);
            Run(With(s, p, Deleting(h, pc)), [Call(p, commit, report)] + rest)
            == Run(With(s.(core := c'), p, Deleting(h, pc')), rest)
  {
    var now := With(s, p, Deleting(h, pc));
    RunAppend(now, [Call(p, commit, report)], rest);
    RunOne(now, Call(p, commit, report));
    var (c', pc') := DeleteCall(s.core, h, pc, commit, report);
    hide DeleteCall, Run;
    assert s.procs[p := Deleting(h, pc)][p := Deleting(h, pc')] == s.procs[p := Deleting(h, pc')];
    assert Step(now, Call(p, commit, report)) == With(s.(core := c'), p, Deleting(h, pc'));
  }

  // ---------------------------------------------------------------- repeating a create

  /** The volume of `spec` is there: its directory `d` and its resource `r`, with whatever settings. */
  ghost predicate Present(c: Core, spec: Spec, d: DirId, r: ResId) {
    && spec.path in c.dirs && c.dirs[spec.path] == d
    && spec.key in c.names && c.names[spec.key] == r && r in c.res
    && c.res[r].key == spec.key && c.res[r].path == spec.path && c.res[r].marker == Managed(spec)
  }

  /** The last two of the calls that follow a claim, and the last read, all answered. */
  lemma ClaimedLeftAlone(s: State, p: Pid, o: Options, d: DirId, r: ResId)
    requires Present(s.core, o.spec, d, r)
    ensures Run(With(s, p, Creating(o, Configure(d, r))), Calls(p, 2) + [Call(p, true, Ok)])
            == With(s, p, Creating(o, Created(Handle(d, r, o.spec)))).(issued := s.issued + {Handle(d, r, o.spec)})
  {
    ChecksLeftAlone(s, p, o, d, r);
    RunAppend(With(s, p, Creating(o, Configure(d, r))), Calls(p, 2), [Call(p, true, Ok)]);
    RunOne(With(s, p, Creating(o, CheckResource(d, r))), Call(p, true, Ok));
    LastRead(s, p, o, d, r);
    hide Run, Step;
  }

  lemma ReadAgain(s: State, p: Pid, o: Options, d: DirId, r: ResId, rest: seq<Event>)
    requires p !in s.procs && Present(s.core, o.spec, d, r)
    ensures Run(s, [StartCreate(p, o)] + (Calls(p, 3) + rest))
            == Run(With(s, p, Creating(o, if s.core.res[r].settings == o.settings then Configure(d, r)
                                           else ClaimPatch(d, 0, r, s.core.res[r].version))), rest)
  {
    var ok := Call(p, true, Ok);
    RunAppend(s, [StartCreate(p, o)], Calls(p, 3) + rest);
    RunOne(s, StartCreate(p, o));
    assert Calls(p, 3) + rest == [ok] + ([ok] + ([ok] + rest));
    hide Run;
    CreateTurn(s, p, o, Preflight, true, Ok, [ok] + ([ok] + rest));
    CreateTurn(s, p, o, MakeDir, true, Ok, [ok] + rest);
    CreateTurn(s, p, o, ClaimRead(d), true, Ok, rest);
  }

  /** A create of a volume that is there as requested changes nothing and returns its handle. */
  lemma CreateAgain(s: State, p: Pid, o: Options, d: DirId, r: ResId)
    requires p !in s.procs && Present(s.core, o.spec, d, r) && s.core.res[r].settings == o.settings
    ensures var h := Handle(d, r, o.spec);
            Run(s, [StartCreate(p, o)] + (Calls(p, 3) + (Calls(p, 2) + [Call(p, true, Ok)])))
            == s.(procs := s.procs[p := Creating(o, Created(h))], issued := s.issued + {h})
  {
    ReadAgain(s, p, o, d, r, Calls(p, 2) + [Call(p, true, Ok)]);
    ClaimedLeftAlone(s, p, o, d, r);
    hide Run, Present;
  }

  /** `n` rounds in which somebody else has changed the resource between the read and the write. */
  function Conflicts(p: Pid, n: nat): seq<Event> {
    if n == 0 then [] else [Call(p, false, Precondition)] + ([Call(p, true, Ok)] + Conflicts(p, n - 1))
  }

  lemma ClaimConflict(s: State, p: Pid, o: Options, d: DirId, r: ResId, k: nat, rest: seq<Event>)
    requires Present(s.core, o.spec, d, r) && s.core.res[r].settings != o.settings && k < 2
    ensures var seen := s.core.res[r].version;
            Run(With(s, p, Creating(o, ClaimPatch(d, k, r, seen))),
                [Call(p, false, Precondition)] + ([Call(p, true, Ok)] + rest))
            == Run(With(s, p, Creating(o, ClaimPatch(d, k + 1, r, seen))), rest)
  {
    var seen := s.core.res[r].version;
    var reread := [Call(p, true, Ok)] + rest;
    assert CreateCall(s.core, o, ClaimPatch(d, k, r, seen), false, Precondition) == (s.core, ClaimReread(d, k + 1));
    assert CreateCall(s.core, o, ClaimReread(d, k + 1), true, Ok) == (s.core, ClaimPatch(d, k + 1, r, seen));
    hide CreateCall, Run, Present;
    CreateTurn(s, p, o, ClaimPatch(d, k, r, seen), false, Precondition, reread);
    CreateTurn(s, p, o, ClaimReread(d, k + 1), true, Ok, rest);
  }

  /** Fewer conflicts than attempts leave the claim at its patch; */
  lemma {:induction false} ClaimConflicts(s: State, p: Pid, o: Options, d: DirId, r: ResId, k: nat, n: nat,
      rest: seq<Event>)
    requires Present(s.core, o.spec, d, r) && s.core.res[r].settings != o.settings && k + n < 3
    ensures var seen := s.core.res[r].version;
            Run(With(s, p, Creating(o, ClaimPatch(d, k, r, seen))), Conflicts(p, n) + rest)
            == Run(With(s, p, Creating(o, ClaimPatch(d, k + n, r, seen))), rest)
    decreases n
  {
    hide Run;
    if n == 0 {
      assert Conflicts(p, 0) + rest == rest;
    } else {
      var more := Conflicts(p, n - 1) + rest;
      assert Conflicts(p, n) + rest == [Call(p, false, Precondition)] + ([Call(p, true, Ok)] + more);
      ClaimConflict(s, p, o, d, r, k, more);
      ClaimConflicts(s, p, o, d, r, k + 1, n - 1, rest);
    }
  }

  lemma PatchedLeftAlone(s: State, p: Pid, o: Options, d: DirId, r: ResId, k: nat)
    requires Present(s.core, o.spec, d, r) && s.core.res[r].settings != o.settings
    ensures var h, before := Handle(d, r, o.spec), s.core.res[r];
            Run(With(s, p, Creating(o, ClaimPatch(d, k, r, before.version))),
                [Call(p, true, Ok)] + (Calls(p, 2) + [Call(p, true, Ok)]))
            == State(s.core.(res := s.core.res[r := Resource(o.spec.key, o.spec.path, Managed(o.spec), o.settings,
                                                             before.version + 1)]),
                     s.procs[p := Creating(o, Created(h))], s.issued + {h}, s.requested)
  {
    var s1 := s.(core := Reconfigure(s.core, r, o.settings));
    hide Run;
    CreateTurn(s, p, o, ClaimPatch(d, k, r, s.core.res[r].version), true, Ok, Calls(p, 2) + [Call(p, true, Ok)]);
    ClaimedLeftAlone(s1, p, o, d, r);
  }

  /** A create of a volume that is there with other settings gives it the requested ones by one patch and
      returns its handle, although up to two conflicts come in between; */
  lemma CreateReconciles(s: State, p: Pid, o: Options, d: DirId, r: ResId, n: nat)
    requires p !in s.procs && Present(s.core, o.spec, d, r) && s.core.res[r].settings != o.settings && n < 3
    ensures var h, before := Handle(d, r, o.spec), s.core.res[r];
            Run(s, [StartCreate(p, o)] + (Calls(p, 3) + (Conflicts(p, n)
                     + ([Call(p, true, Ok)] + (Calls(p, 2) + [Call(p, true, Ok)])))))
            == State(s.core.(res := s.core.res[r := Resource(o.spec.key, o.spec.path, Managed(o.spec), o.settings,
                                                             before.version + 1)]),
                     s.procs[p := Creating(o, Created(h))], s.issued + {h}, s.requested)
  {
    var tail := [Call(p, true, Ok)] + (Calls(p, 2) + [Call(p, true, Ok)]);
    ReadAgain(s, p, o, d, r, Conflicts(p, n) + tail);
    ClaimConflicts(s, p, o, d, r, 0, n, tail);
    PatchedLeftAlone(s, p, o, d, r, n);
    hide Run, Conflicts, Present;
  }

  /** the third makes it give up, with Core as it was. */
  lemma CreateGivesUp(s: State, p: Pid, o: Options, d: DirId, r: ResId)
    requires p !in s.procs && Present(s.core, o.spec, d, r) && s.core.res[r].settings != o.settings
    ensures Run(s, [StartCreate(p, o)] + (Calls(p, 3) + (Conflicts(p, 2) + ([Call(p, false, Precondition)] + []))))
            == s.(procs := s.procs[p := Creating(o, CreateFailed)])
  {
    var seen := s.core.res[r].version;
    ReadAgain(s, p, o, d, r, Conflicts(p, 2) + ([Call(p, false, Precondition)] + []));
    ClaimConflicts(s, p, o, d, r, 0, 2, [Call(p, false, Precondition)] + []);
    hide Conflicts;
    CreateTurn(s, p, o, ClaimPatch(d, 2, r, seen), false, Precondition, []);
  }

  // ---------------------------------------------------------------- a create whose POST is lost or comes late

  /** The create of a free name up to its POST. */
  lemma UpToPost(s: State, p: Pid, o: Options, rest: seq<Event>)
    requires p !in s.procs && o.spec.key !in s.core.names
    ensures var (c, d) := EnsureDirectory(s.core, o.spec.path);
            Run(s, [StartCreate(p, o)] + (Calls(p, 3) + rest))
            == Run(With(s.(core := c), p, Creating(o, ClaimPost(d))), rest)
  {
    var ok, d := Call(p, true, Ok), EnsureDirectory(s.core, o.spec.path).1;
    var s1 := s.(core := EnsureDirectory(s.core, o.spec.path).0);
    RunAppend(s, [StartCreate(p, o)], Calls(p, 3) + rest);
    RunOne(s, StartCreate(p, o));
    assert Calls(p, 3) + rest == [ok] + ([ok] + ([ok] + rest));
    hide Run;
    CreateTurn(s, p, o, Preflight, true, Ok, [ok] + ([ok] + rest));
    CreateTurn(s, p, o, MakeDir, true, Ok, [ok] + rest);
    CreateTurn(s1, p, o, ClaimRead(d), true, Ok, rest);
  }

  lemma PostIsLost(s: State, p: Pid, o: Options, rest: seq<Event>)
    requires o.spec.key !in s.core.names
    ensures var (c, d) := EnsureDirectory(s.core, o.spec.path);
            Run(With(s.(core := c), p, Creating(o, ClaimPost(d))), [Call(p, true, Ambiguous)] + rest)
            == Run(With(s.(core := Made(s.core, o)), p, Creating(o, ClaimReread(d, 0))), rest)
  {
    var (c, d) := EnsureDirectory(s.core, o.spec.path);
    CreateTurn(s.(core := c), p, o, ClaimPost(d), true, Ambiguous, rest);
    hide Run;
  }

  lemma RereadLeftAlone(s: State, p: Pid, o: Options, d: DirId, r: ResId)
    requires Present(s.core, o.spec, d, r) && s.core.res[r].settings == o.settings
    ensures var h := Handle(d, r, o.spec);
            Run(With(s, p, Creating(o, ClaimReread(d, 0))),
                [Call(p, true, Ok)] + (Calls(p, 2) + [Call(p, true, Ok)]))
            == s.(procs := s.procs[p := Creating(o, Created(h))], issued := s.issued + {h})
  {
    CreateTurn(s, p, o, ClaimReread(d, 0), true, Ok, Calls(p, 2) + [Call(p, true, Ok)]);
    ClaimedLeftAlone(s, p, o, d, r);
    hide Run;
  }

  /** Losing the answer to a POST that took effect changes nothing: the create reads the resource back and
      ends as one left alone, with the same volume and handle. */
  lemma LostPostIsRecovered(s: State, p: Pid, o: Options)
    requires p !in s.procs && o.spec.key !in s.core.names
    ensures Run(s, [StartCreate(p, o)] + (Calls(p, 3) + ([Call(p, true, Ambiguous)] + ([Call(p, true, Ok)]
                     + (Calls(p, 2) + [Call(p, true, Ok)])))))
            == Run(s, CreateEvents(p, o))
  {
    var h, tail := NewHandle(s.core, o.spec), [Call(p, true, Ok)] + (Calls(p, 2) + [Call(p, true, Ok)]);
    var s2 := s.(core := Made(s.core, o));
    CreateLeftAlone(s, p, o);
    UpToPost(s, p, o, [Call(p, true, Ambiguous)] + tail);
    PostIsLost(s, p, o, tail);
    hide Run, Calls, CreateEvents;
    assert Present(s2.core, o.spec, h.did, h.rid) && s2.core.res[h.rid].settings == o.settings;
    hide Present, Made;
    RereadLeftAlone(s2, p, o, h.did, h.rid);
  }

  /** Losing one that did not take effect fails the create, which leaves nothing but the directory. */
  lemma LostPostWithoutEffect(s: State, p: Pid, o: Options)
    requires p !in s.procs && o.spec.key !in s.core.names
    ensures Run(s, [StartCreate(p, o)] + (Calls(p, 3) + ([Call(p, false, Ambiguous)] + ([Call(p, true, Ok)] + []))))
            == s.(core := EnsureDirectory(s.core, o.spec.path).0, procs := s.procs[p := Creating(o, CreateFailed)])
  {
    var d := EnsureDirectory(s.core, o.spec.path).1;
    var s1 := s.(core := EnsureDirectory(s.core, o.spec.path).0);
    UpToPost(s, p, o, [Call(p, false, Ambiguous)] + ([Call(p, true, Ok)] + []));
    CreateTurn(s1, p, o, ClaimPost(d), false, Ambiguous, [Call(p, true, Ok)] + []);
    CreateTurn(s1, p, o, ClaimReread(d, 0), true, Ok, []);
  }

  /** A create whose POST comes second to another one of the same request returns the same volume. */
  lemma LatePostIsRecovered(s: State, p: Pid, o: Options, d: DirId, r: ResId)
    requires Present(s.core, o.spec, d, r) && s.core.res[r].settings == o.settings
    ensures var h := Handle(d, r, o.spec);
            Run(With(s, p, Creating(o, ClaimPost(d))),
                [Call(p, true, Exists)] + ([Call(p, true, Ok)] + (Calls(p, 2) + [Call(p, true, Ok)])))
            == s.(procs := s.procs[p := Creating(o, Created(h))], issued := s.issued + {h})
  {
    CreateTurn(s, p, o, ClaimPost(d), true, Exists, [Call(p, true, Ok)] + (Calls(p, 2) + [Call(p, true, Ok)]));
    RereadLeftAlone(s, p, o, d, r);
    hide Run;
  }

  // ---------------------------------------------------------------- a create that is refused

  /** Whatever stops a create leaves Core as the call found it if the call had no effect, and ends the create but
      for two cases: a POST that finds the name taken or gets no answer is followed by a read, and so is a
      conflict of one of the first two patches. */
  lemma ErrorEndsCreate(c: Core, o: Options, pc: CreatePc, commit: bool, report: Report)
    requires !report.Ok? && !pc.Created? && !pc.CreateFailed?
    ensures var (c', pc') := CreateCall(c, o, pc, commit, report);
            && (!commit ==> c' == c)
            && pc' == if pc.ClaimPost? && (report.Exists? || report.Ambiguous?) then ClaimReread(pc.did, 0)
                      else if pc.ClaimPatch? && report.Precondition? && pc.attempt < 2
                           then ClaimReread(pc.did, pc.attempt + 1)
                      else CreateFailed
  {
  }

  /** A create of a name that another volume or somebody else's resource has, or that leads elsewhere, ends at
      its first read; nothing but its directory has been made. */
  lemma TakenNameIsRefused(s: State, p: Pid, o: Options, r: ResId)
    requires p !in s.procs && o.spec.key in s.core.names && s.core.names[o.spec.key] == r && r in s.core.res
    requires s.core.res[r].marker != Managed(o.spec) || s.core.res[r].path != o.spec.path
    ensures Run(s, [StartCreate(p, o)] + (Calls(p, 3) + []))
            == s.(core := EnsureDirectory(s.core, o.spec.path).0, procs := s.procs[p := Creating(o, CreateFailed)])
  {
    var ok, d := Call(p, true, Ok), EnsureDirectory(s.core, o.spec.path).1;
    var s1 := s.(core := EnsureDirectory(s.core, o.spec.path).0);
    RunAppend(s, [StartCreate(p, o)], Calls(p, 3) + []);
    RunOne(s, StartCreate(p, o));
    assert Calls(p, 3) + [] == [ok] + ([ok] + ([ok] + []));
    CreateTurn(s, p, o, Preflight, true, Ok, [ok] + ([ok] + []));
    CreateTurn(s, p, o, MakeDir, true, Ok, [ok] + []);
    CreateTurn(s1, p, o, ClaimRead(d), true, Ok, []);
  }

  /** Nor does a create go on once its path leads to another directory or its resource has changed hands. */
  lemma ReplacementEndsCreate(c: Core, o: Options, did: DirId, r: ResId)
    requires r in c.res
    ensures o.spec.path in c.dirs && c.dirs[o.spec.path] != did ==>
              CreateCall(c, o, Configure(did, r), true, Ok) == (c, CreateFailed)
              && CreateCall(c, o, CheckDir(did, r), true, Ok) == (c, CreateFailed)
    ensures o.spec.path !in c.dirs ==> CreateCall(c, o, CheckDir(did, r), true, Ok) == (c, CreateFailed)
    ensures c.res[r].marker != Managed(o.spec) || c.res[r].key != o.spec.key || c.res[r].path != o.spec.path ==>
              CreateCall(c, o, CheckResource(did, r), true, Ok) == (c, CreateFailed)
  {
  }

  // ---------------------------------------------------------------- a deletion under conflicts

  /** The resource of the handle is there with the marker of its volume. */
  ghost predicate Unmarked(c: Core, h: Handle) {
    h.rid in c.res && c.res[h.rid].key == h.spec.key && c.res[h.rid].path == h.spec.path
        && c.res[h.rid].marker == Managed(h.spec)
  }

  lemma PrepareConflict(s: State, p: Pid, h: Handle, gone: bool, k: nat, rest: seq<Event>)
    requires Unmarked(s.core, h) && k < 2
    ensures var seen := s.core.res[h.rid].version;
            Run(With(s, p, Deleting(h, PreparePatch(gone, k, seen))),
                [Call(p, false, Precondition)] + ([Call(p, true, Ok)] + rest))
            == Run(With(s, p, Deleting(h, PreparePatch(gone, k + 1, seen))), rest)
  {
    DeleteTurn(s, p, h, PreparePatch(gone, k, s.core.res[h.rid].version), false, Precondition,
               [Call(p, true, Ok)] + rest);
    DeleteTurn(s, p, h, PrepareRead(gone, k + 1), true, Ok, rest);
    hide Run;
  }

  lemma {:induction false} PrepareConflicts(s: State, p: Pid, h: Handle, gone: bool, k: nat, n: nat, rest: seq<Event>)
    requires Unmarked(s.core, h) && k + n < 3
    ensures var seen := s.core.res[h.rid].version;
            Run(With(s, p, Deleting(h, PreparePatch(gone, k, seen))), Conflicts(p, n) + rest)
            == Run(With(s, p, Deleting(h, PreparePatch(gone, k + n, seen))), rest)
    decreases n
  {
    hide Run;
    if n == 0 {
      assert Conflicts(p, 0) + rest == rest;
    } else {
      var more := Conflicts(p, n - 1) + rest;
      assert Conflicts(p, n) + rest == [Call(p, false, Precondition)] + ([Call(p, true, Ok)] + more);
      PrepareConflict(s, p, h, gone, k, more);
      PrepareConflicts(s, p, h, gone, k + 1, n - 1, rest);
    }
  }

  /** Up to two conflicts do not keep a deletion from its tombstone, which replaces the marker alone and
      leads on to the tree-delete, or past it if the directory is gone; */
  lemma TombstoneDespiteConflicts(s: State, p: Pid, h: Handle, gone: bool, n: nat)
    requires Unmarked(s.core, h) && n < 3
    ensures var before := s.core.res[h.rid];
            Run(With(s, p, Deleting(h, PreparePatch(gone, 0, before.version))),
                Conflicts(p, n) + ([Call(p, true, Ok)] + []))
            == s.(core := s.core.(res := s.core.res[h.rid :=
                      Resource(before.key, before.path, Tombstone(h), before.settings, before.version + 1)]),
                  procs := s.procs[p := Deleting(h, if gone then RemoveRead(0) else Inspect)])
  {
    var seen := s.core.res[h.rid].version;
    PrepareConflicts(s, p, h, gone, 0, n, [Call(p, true, Ok)] + []);
    hide Conflicts;
    DeleteTurn(s, p, h, PreparePatch(gone, n, seen), true, Ok, []);
  }

  /** the third does, and nothing has changed. */
  lemma TombstoneGivesUp(s: State, p: Pid, h: Handle, gone: bool)
    requires Unmarked(s.core, h)
    ensures Run(With(s, p, Deleting(h, PreparePatch(gone, 0, s.core.res[h.rid].version))),
                Conflicts(p, 2) + ([Call(p, false, Precondition)] + []))
            == s.(procs := s.procs[p := Deleting(h, DeleteFailed)])
  {
    var seen := s.core.res[h.rid].version;
    PrepareConflicts(s, p, h, gone, 0, 2, [Call(p, false, Precondition)] + []);
    hide Conflicts;
    DeleteTurn(s, p, h, PreparePatch(gone, 2, seen), false, Precondition, []);
  }

  /** The resource may be removed: it carries the handle's tombstone, or its marker if the data is kept. */
  ghost predicate Removable(c: Core, h: Handle) {
    h.rid in c.res && c.res[h.rid].key == h.spec.key && c.res[h.rid].path == h.spec.path
        && c.res[h.rid].marker == if h.spec.deleteData then Tombstone(h) else Managed(h.spec)
  }

  lemma RemovalConflict(s: State, p: Pid, h: Handle, k: nat, rest: seq<Event>)
    requires Removable(s.core, h) && k < 2
    ensures var seen := s.core.res[h.rid].version;
            Run(With(s, p, Deleting(h, RemoveSend(k, seen))),
                [Call(p, false, Precondition)] + ([Call(p, true, Ok)] + rest))
            == Run(With(s, p, Deleting(h, RemoveSend(k + 1, seen))), rest)
  {
    DeleteTurn(s, p, h, RemoveSend(k, s.core.res[h.rid].version), false, Precondition, [Call(p, true, Ok)] + rest);
    DeleteTurn(s, p, h, RemoveRead(k + 1), true, Ok, rest);
    hide Run;
  }

  lemma {:induction false} RemovalConflicts(s: State, p: Pid, h: Handle, k: nat, n: nat, rest: seq<Event>)
    requires Removable(s.core, h) && k + n < 3
    ensures var seen := s.core.res[h.rid].version;
            Run(With(s, p, Deleting(h, RemoveSend(k, seen))), Conflicts(p, n) + rest)
            == Run(With(s, p, Deleting(h, RemoveSend(k + n, seen))), rest)
    decreases n
  {
    hide Run;
    if n == 0 {
      assert Conflicts(p, 0) + rest == rest;
    } else {
      var more := Conflicts(p, n - 1) + rest;
      assert Conflicts(p, n) + rest == [Call(p, false, Precondition)] + ([Call(p, true, Ok)] + more);
      RemovalConflict(s, p, h, k, more);
      RemovalConflicts(s, p, h, k + 1, n - 1, rest);
    }
  }

  /** Nor from removing the resource, and only that; a removal whose answer is that there is no such resource
      has succeeded too; */
  lemma RemovalDespiteConflicts(s: State, p: Pid, h: Handle, n: nat, report: Report)
    requires Removable(s.core, h) && n < 3 && (report.Ok? || report.NotFound?)
    ensures Run(With(s, p, Deleting(h, RemoveSend(0, s.core.res[h.rid].version))),
                Conflicts(p, n) + ([Call(p, true, report)] + []))
            == s.(core := s.core.(res := s.core.res - {h.rid}, names := s.core.names - {h.spec.key}),
                  procs := s.procs[p := Deleting(h, Deleted)])
  {
    var seen := s.core.res[h.rid].version;
    RemovalConflicts(s, p, h, 0, n, [Call(p, true, report)] + []);
    hide Conflicts;
    DeleteTurn(s, p, h, RemoveSend(n, seen), true, report, []);
  }

  /** and the third conflict leaves it. */
  lemma RemovalGivesUp(s: State, p: Pid, h: Handle)
    requires Removable(s.core, h)
    ensures Run(With(s, p, Deleting(h, RemoveSend(0, s.core.res[h.rid].version))),
                Conflicts(p, 2) + ([Call(p, false, Precondition)] + []))
            == s.(procs := s.procs[p := Deleting(h, DeleteFailed)])
  {
    var seen := s.core.res[h.rid].version;
    RemovalConflicts(s, p, h, 0, 2, [Call(p, false, Precondition)] + []);
    hide Conflicts;
    DeleteTurn(s, p, h, RemoveSend(2, seen), false, Precondition, []);
  }

  // ---------------------------------------------------------------- a deletion that is refused

  /** Whatever stops a deletion leaves Core as the call found it if the call had no effect, and ends the deletion
      but for these cases: the first two conflicts of either write are followed by a read; a submission
      without an answer is looked up, one that finds a job waits for it, and one that finds no directory
      goes on if there is none; a resource that is gone is as good as removed. */
  lemma ErrorEndsDelete(c: Core, h: Handle, pc: DeletePc, commit: bool, report: Report)
    requires !report.Ok? && !pc.Deleted? && !pc.DeleteFailed?
    ensures var (c', pc') := DeleteCall(c, h, pc, commit, report);
            && (!commit ==> c' == c)
            && pc' == if pc.PreparePatch? && report.Precondition? && pc.attempt < 2
                      then PrepareRead(pc.gone, pc.attempt + 1)
                      else if pc.RemoveSend? && report.Precondition? && pc.attempt < 2 then RemoveRead(pc.attempt + 1)
                      else if pc.RemoveSend? && report.NotFound? && h.rid !in c'.res then Deleted
                      else if pc.Submit? && report.Ambiguous? then Reconcile
                      else if pc.Submit? && report.Exists? && h.did in c.jobs then Poll
                      else if pc.Submit? && report.NotFound? && !Alive(c, h.did) then RemoveRead(0)
                      else DeleteFailed
  {
  }

  /** A deletion does not touch what is no longer the handle's: another directory at the path, another resource
      under its id, a foreign marker, another handle's tombstone. */
  lemma ReplacementEndsDelete(c: Core, h: Handle, gone: bool, attempt: nat)
    ensures h.spec.path in c.dirs && c.dirs[h.spec.path] != h.did ==>
              DeleteCall(c, h, Attributes, true, Ok) == (c, DeleteFailed)
    ensures h.rid in c.res && (c.res[h.rid].key != h.spec.key || c.res[h.rid].path != h.spec.path
                               || c.res[h.rid].marker !in {Managed(h.spec), Tombstone(h)}) ==>
              DeleteCall(c, h, PrepareRead(gone, attempt), true, Ok) == (c, DeleteFailed)
              && DeleteCall(c, h, RemoveRead(attempt), true, Ok) == (c, DeleteFailed)
    ensures h.rid !in c.res ==>
              DeleteCall(c, h, PrepareRead(gone, attempt), true, Ok) == (c, if gone then Deleted else DeleteFailed)
  {
  }

  /** A write that is reported as done without having taken effect is not believed. */
  lemma UnearnedSuccessEnds(c: Core, o: Options, cpc: CreatePc, h: Handle, dpc: DeletePc)
    ensures cpc.ClaimPost? || cpc.ClaimPatch? || cpc.MakeDir? || cpc.Configure? ==>
              CreateCall(c, o, cpc, false, Ok) == (c, CreateFailed)
    ensures dpc.PreparePatch? || dpc.Submit? || dpc.RemoveSend? ==>
              DeleteCall(c, h, dpc, false, Ok) == (c, DeleteFailed)
  {
  }

  // ---------------------------------------------------------------- a tree-delete whose answer is lost

  /** A submission whose answer is lost, or that finds the job of another call, is never repeated: the record
      decides. If there is a running job the deletion waits for it; */
  lemma LostSubmissionIsReconciled(s: State, p: Pid, h: Handle)
    requires Alive(s.core, h.did) && h.did !in s.core.jobs
    ensures Run(With(s, p, Deleting(h, Submit)), [Call(p, true, Ambiguous)] + ([Call(p, true, Ok)] + []))
            == s.(core := s.core.(jobs := s.core.jobs[h.did := Job(h, false)]),
                procs := s.procs[p := Deleting(h, Poll)])
  {
    var s1 := s.(core := s.core.(jobs := s.core.jobs[h.did := Job(h, false)]));
    DeleteTurn(s, p, h, Submit, true, Ambiguous, [Call(p, true, Ok)] + []);
    DeleteTurn(s1, p, h, Reconcile, true, Ok, []);
  }

  lemma SubmissionFindsJob(s: State, p: Pid, h: Handle, commit: bool)
    requires h.did in s.core.jobs
    ensures Run(With(s, p, Deleting(h, Submit)), [Call(p, commit, Exists)] + [])
            == s.(procs := s.procs[p := Deleting(h, Poll)])
  {
    DeleteTurn(s, p, h, Submit, commit, Exists, []);
  }

  /** if there is none the deletion fails. */
  lemma LostSubmissionWithoutEffect(s: State, p: Pid, h: Handle)
    requires h.did !in s.core.jobs
    ensures Run(With(s, p, Deleting(h, Submit)), [Call(p, false, Ambiguous)] + ([Call(p, true, Ok)] + []))
            == s.(procs := s.procs[p := Deleting(h, DeleteFailed)])
  {
    DeleteTurn(s, p, h, Submit, false, Ambiguous, [Call(p, true, Ok)] + []);
    DeleteTurn(s, p, h, Reconcile, true, Ok, []);
  }

  /** A deletion waits as long as the job runs, fails once it has aborted, and goes on once it is off the
      record. */
  lemma {:induction false} WaitsForJob(s: State, p: Pid, h: Handle, n: nat)
    requires h.did in s.core.jobs && !s.core.jobs[h.did].aborted
    ensures Run(With(s, p, Deleting(h, Poll)), Calls(p, n)) == With(s, p, Deleting(h, Poll))
    decreases n
  {
    if n == 0 {
      assert Calls(p, 0) == [];
    } else {
      DeleteMoves(s, p, h, Poll, n);
      WaitsForJob(s, p, h, n - 1);
      hide DeleteCall, Run;
    }
  }

  lemma PollEnds(s: State, p: Pid, h: Handle)
    requires h.did in s.core.jobs ==> s.core.jobs[h.did].aborted
    ensures Run(With(s, p, Deleting(h, Poll)), [Call(p, true, Ok)] + [])
            == With(s, p, Deleting(h, if h.did in s.core.jobs then DeleteFailed else RemoveRead(0)))
  {
    DeleteTurn(s, p, h, Poll, true, Ok, []);
  }
}
