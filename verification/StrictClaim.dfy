/** Claiming an export or share: create it, or reconcile the one that is there if it carries the
    caller's own marker.

    The loop is the same for both protocols; `Kind` says how a resource is compared with and changed
    towards a request. Before each call any other writer may change anything, but an ETag is never
    reused, and a write or its response may be lost. */
module StrictClaim {
  datatype Kind<!R, !Q> = Kind(
    marker: R -> string, path: R -> string, wantedMarker: Q -> string, wantedPath: Q -> string,
    differs: (R, Q) -> bool, patched: (R, Q) -> R, created: Q -> R)

  /** The resource carries the request's marker and path and needs no further change. */
  predicate Settled<R, Q>(k: Kind<R, Q>, r: R, q: Q) {
    k.marker(r) == k.wantedMarker(q) && k.path(r) == k.wantedPath(q) && !k.differs(r, q)
  }

  predicate Own<R, Q>(k: Kind<R, Q>, r: R, q: Q) {
    k.marker(r) == k.wantedMarker(q) && k.path(r) == k.wantedPath(q)
  }

  /** Creating settles the request, and patching a resource of one's own does. */
  ghost predicate Coherent<R(!new), Q(!new)>(k: Kind<R, Q>, q: Q) {
    Settled(k, k.created(q), q) && forall r :: Own(k, r, q) ==> Settled(k, k.patched(r, q), q)
  }

  datatype Entry<R> = Entry(value: R, etag: nat)

  datatype Reading<R> = Found(value: R, etag: nat) | Missing | ReadFailed
  datatype PostReport = Created | Exists | Ambiguous | Refused
  datatype PatchReport = Updated | Precondition | PatchFailed

  /** What one call was answered. */
  datatype Reply<R> = Read(reading: Reading<R>) | Posted(post: PostReport) | Patched(patch: PatchReport)

  datatype Claimed<R> = Success(value: R) | Conflict | Retargeted | Error

  const CLAIM_ATTEMPTS := 3

  class Registry<R(!new, ==)> {
    var store: map<string, Entry<R>>
    var next: nat
    /** What this caller's patches hit, and how often it posted. */
    ghost var hits: seq<R>
    ghost var posts: nat
    /** The answers to this caller's calls. */
    ghost var replies: seq<Reply<R>>
    /** No other writer and no fault. */
    const quiet: bool

    ghost predicate Valid()
      reads this
    {
      forall n <- store :: store[n].etag < next
    }

    /** `before` at version counter `at`, now or later: an entry with an ETag from then is as it was then. */
    ghost predicate Since(before: map<string, Entry<R>>, at: nat)
      reads this
    {
      at <= next && forall n <- store :: store[n].etag < at ==> n in before && before[n] == store[n]
    }

    method Others()
      requires Valid()
      modifies this`store, this`next
      ensures Valid() && Since(old(store), old(next))
      ensures quiet ==> store == old(store) && next == old(next)
    {
      var other: map<string, Entry<R>>, counter: nat :|
        && next <= counter && (forall n <- other :: other[n].etag < counter)
        && (forall n <- other :: other[n].etag < next ==> n in store && store[n] == other[n])
        && (quiet ==> other == store && counter == next);
      store, next := other, counter;
    }

    method Get(name: string) returns (r: Reading<R>)
      requires Valid()
      modifies this`store, this`next, this`replies
      ensures Valid() && Since(old(store), old(next)) && replies == old(replies) + [Read(r)]
      ensures r.Found? ==> name in store && store[name] == Entry(r.value, r.etag)
      ensures r.Missing? ==> name !in store
      ensures quiet ==> !r.ReadFailed? && store == old(store) && next == old(next)
    {
      Others();
      var fault: bool := *;
      r := if fault && !quiet then ReadFailed
           else if name in store then Found(store[name].value, store[name].etag) else Missing;
      replies := replies + [Read(r)];
    }

    method Post(name: string, value: R) returns (r: PostReport)
      requires Valid()
      modifies this
      ensures Valid() && Since(old(store), old(next)) && hits == old(hits) && posts == old(posts) + 1
      ensures replies == old(replies) + [Posted(r)]
      ensures r.Created? ==> name in store && store[name].value == value
      ensures quiet ==>
              if name in old(store) then r.Exists? && store == old(store) && next == old(next)
              else r.Created? && store == old(store)[name := Entry(value, old(next))]
    {
      Others();
      posts := posts + 1;
      var commit: bool, lost: bool := *, *;
      if quiet { commit, lost := true, false; }
      r := *;
      if r.Created? || r.Exists? { r := Ambiguous; }
      if name in store {
        if !lost { r := Exists; }
      } else if commit {
        store := store[name := Entry(value, next)];
        next := next + 1;
        if !lost { r := Created; }
      }
      replies := replies + [Posted(r)];
    }

    /** A conditional write; `Precondition` can also mean that it took effect and was then replayed. */
    method Patch(name: string, etag: nat, value: R) returns (r: PatchReport)
      requires Valid()
      modifies this
      ensures Valid() && posts == old(posts) && old(next) <= next && replies == old(replies) + [Patched(r)]
      ensures hits == old(hits)
              || (etag < old(next) && name in old(store) && old(store)[name].etag == etag
                  && hits == old(hits) + [old(store)[name].value])
              || (etag >= old(next) && |hits| == |old(hits)| + 1)
      ensures r.Updated? ==> name in store && store[name].value == value
      ensures quiet && name in old(store) && old(store)[name].etag == etag ==>
                && r.Updated? && hits == old(hits) + [old(store)[name].value]
                && store == old(store)[name := Entry(value, old(next))]
    {
      Others();
      var commit: bool, lost: bool := *, *;
      if quiet { commit, lost := true, false; }
      r := *;
      if r.Updated? { r := PatchFailed; }
      if name in store && store[name].etag == etag && commit {
        hits := hits + [store[name].value];
        store := store[name := Entry(value, next)];
        next := next + 1;
        if !lost { r := Updated; }
      }
      replies := replies + [Patched(r)];
    }
  }

  /** All that a claim's patches hit carries the caller's marker and path. */
  ghost predicate OwnHits<R, Q>(k: Kind<R, Q>, q: Q, before: seq<R>, after: seq<R>) {
    |before| <= |after| && after[..|before|] == before && forall i | |before| <= i < |after| :: Own(k, after[i], q)
  }

  lemma MoreHits<R(!new), Q(!new)>(k: Kind<R, Q>, q: Q, start: seq<R>, before: seq<R>, after: seq<R>, hit: R)
    requires OwnHits(k, q, start, before) && Own(k, hit, q) && (after == before || after == before + [hit])
    ensures OwnHits(k, q, start, after)
  {
  }

  lemma HitsAppend<R, Q>(k: Kind<R, Q>, q: Q, start: seq<R>, before: seq<R>, after: seq<R>)
    requires OwnHits(k, q, start, before) && OwnHits(k, q, before, after)
    ensures OwnHits(k, q, start, after)
  {
  }

  /** What a claim may end with: the resource as it was found, as created, or an own one as patched. */
  ghost predicate Reached<R(!new), Q(!new)>(k: Kind<R, Q>, r: R, q: Q) {
    Settled(k, r, q) || r == k.created(q) || exists r0 :: Own(k, r0, q) && r == k.patched(r0, q)
  }

  lemma ReachedIsSettled<R(!new), Q(!new)>(k: Kind<R, Q>, r: R, q: Q)
    requires Coherent(k, q) && Reached(k, r, q)
    ensures Settled(k, r, q)
  {
  }

  lemma FoundReaches<R(!new), Q(!new)>(k: Kind<R, Q>, r: R, q: Q)
    requires Own(k, r, q) && !k.differs(r, q)
    ensures Reached(k, r, q) && Settled(k, r, q)
  {
  }

  lemma PatchReaches<R(!new), Q(!new)>(k: Kind<R, Q>, r: R, q: Q)
    requires Own(k, r, q)
    ensures Reached(k, k.patched(r, q), q)
  {
  }

  /** What a claim comes to when nobody interferes. */
  function Undisturbed<R, Q>(k: Kind<R, Q>, store: map<string, Entry<R>>, name: string, q: Q): Claimed<R> {
    if name !in store then Success(k.created(q))
    else
      var r := store[name].value;
      if k.marker(r) != k.wantedMarker(q) then Conflict
      else if k.path(r) != k.wantedPath(q) then Retargeted
      else Success(if k.differs(r, q) then k.patched(r, q) else r)
  }

  /** The last answer was that a read, the POST or a patch failed, that the resource is gone again after a POST or
      a conflict, or that the third patch met a conflict. */
  ghost predicate GaveUp<R(!new)>(t: seq<Reply<R>>) {
    && t != []
    && var last := t[|t| - 1];
    || last == Read(ReadFailed) || last == Posted(Refused) || last == Patched(PatchFailed)
    || (last == Read(Missing) && |t| >= 3)
    || (last == Patched(Precondition) && |t| >= if t[0] == Read(Missing) then 8 else 6)
  }

  /** A claim's outcome follows from the last answers its calls got. */
  ghost predicate Follows<R(!new), Q(!new)>(k: Kind<R, Q>, q: Q, t: seq<Reply<R>>, r: Claimed<R>) {
    && t != []
    && var last := t[|t| - 1];
    && (r.Success? ==>
          || (last == Posted(Created) && r.value == k.created(q))
          || (last.Read? && last.reading.Found? && r.value == last.reading.value && Settled(k, r.value, q))
          || (last == Patched(Updated) && |t| >= 2 && t[|t| - 2].Read? && t[|t| - 2].reading.Found?
              && var before := t[|t| - 2].reading.value;
              Own(k, before, q) && k.differs(before, q) && r.value == k.patched(before, q)))
    && (r.Conflict? ==> last.Read? && last.reading.Found? && k.marker(last.reading.value) != k.wantedMarker(q))
    && (r.Retargeted? ==>
          last.Read? && last.reading.Found? && k.marker(last.reading.value) == k.wantedMarker(q)
          && k.path(last.reading.value) != k.wantedPath(q))
    && (r.Error? ==> GaveUp(t))
  }

  /** The answers so far: `found` was the last if it is there, and otherwise a POST or a conflict was. Each
      attempt took a read and a patch. */
  ghost predicate Pending<R(!new)>(t: seq<Reply<R>>, found: Reading<R>, attempt: nat) {
    && t != [] && !found.ReadFailed?
    && |t| >= 2 * attempt + (if t[0] == Read(Missing) then 2 else 0) + (if found.Found? then 1 else 0)
    && (found.Found? ==> t[|t| - 1] == Read(found))
    && (found.Missing? ==> |t| >= 2)
  }

  lemma ReadPending<R(!new), Q(!new)>(k: Kind<R, Q>, q: Q, t: seq<Reply<R>>, found: Reading<R>, attempt: nat)
    requires Pending(t, Missing, attempt)
    ensures if found.Found? then Pending(t + [Read(found)], found, attempt) else Follows(k, q, t + [Read(found)], Error)
  {
  }

  lemma FoundFollows<R(!new), Q(!new)>(k: Kind<R, Q>, q: Q, t: seq<Reply<R>>, found: Reading<R>, attempt: nat)
    requires Pending(t, found, attempt) && found.Found?
    ensures k.marker(found.value) != k.wantedMarker(q) ==> Follows(k, q, t, Conflict)
    ensures k.marker(found.value) == k.wantedMarker(q) && k.path(found.value) != k.wantedPath(q) ==>
              Follows(k, q, t, Retargeted)
    ensures Own(k, found.value, q) && !k.differs(found.value, q) ==> Follows(k, q, t, Success(found.value))
  {
  }

  lemma PatchFollows<R(!new), Q(!new)>(k: Kind<R, Q>, q: Q, t: seq<Reply<R>>, found: Reading<R>, attempt: nat,
      report: PatchReport)
    requires Pending(t, found, attempt) && found.Found? && Own(k, found.value, q) && k.differs(found.value, q)
    ensures report.Updated? ==> Follows(k, q, t + [Patched(report)], Success(k.patched(found.value, q)))
    ensures report.PatchFailed? ==> Follows(k, q, t + [Patched(report)], Error)
    ensures report.Precondition? ==> Pending(t + [Patched(report)], Missing, attempt + 1)
  {
    assert (t + [Patched(report)])[|t| - 1] == Read(found);
  }

  lemma ConflictsFollow<R(!new), Q(!new)>(k: Kind<R, Q>, q: Q, t: seq<Reply<R>>)
    requires Pending(t, Missing, CLAIM_ATTEMPTS) && t[|t| - 1] == Patched(Precondition)
    ensures Follows(k, q, t, Error)
  {
  }

  /** The strict claim. Success yields a resource that the request has reached, which is one with its
      marker, path and settings if creating and patching settle the request; every patch that takes
      effect hits a resource of the caller's own; and claiming again writes nothing. */
  method Claim<R(!new, ==), Q(!new)>(reg: Registry<R>, k: Kind<R, Q>, name: string, q: Q) returns (r: Claimed<R>)
    requires reg.Valid()
    modifies reg
    ensures reg.Valid()
    ensures r.Success? ==> Reached(k, r.value, q) && (Coherent(k, q) ==> Settled(k, r.value, q))
    ensures r.Success? ==> name in reg.store && reg.store[name].value == r.value
    ensures r.Conflict? ==> name in reg.store && k.marker(reg.store[name].value) != k.wantedMarker(q)
    ensures OwnHits(k, q, old(reg.hits), reg.hits) && |reg.hits| <= |old(reg.hits)| + CLAIM_ATTEMPTS
            && reg.posts <= old(reg.posts) + 1
    ensures old(reg.replies) <= reg.replies && Follows(k, q, reg.replies[|old(reg.replies)|..], r)
    ensures reg.quiet && name in old(reg.store) && Settled(k, old(reg.store)[name].value, q) ==>
              r == Success(old(reg.store)[name].value) && reg.store == old(reg.store) && reg.hits == old(reg.hits)
                  && reg.posts == old(reg.posts)
    ensures reg.quiet ==> r == Undisturbed(k, old(reg.store), name, q)
    // Undisturbed, a free name is taken by one POST, an own resource that differs is changed by one patch, and a
    // foreign or retargeted one is left alone.
    ensures reg.quiet && name !in old(reg.store) ==>
              && r == Success(k.created(q)) && reg.posts == old(reg.posts) + 1 && reg.hits == old(reg.hits)
              && reg.store == old(reg.store)[name := Entry(k.created(q), old(reg.next))]
    ensures reg.quiet && name in old(reg.store) ==>
              var before := old(reg.store)[name].value;
              && reg.posts == old(reg.posts)
              && (Own(k, before, q) && k.differs(before, q) ==>
                    && r == Success(k.patched(before, q)) && reg.hits == old(reg.hits) + [before]
                    && reg.store == old(reg.store)[name := Entry(k.patched(before, q), old(reg.next))])
              && (!(Own(k, before, q) && k.differs(before, q))
                  ==> reg.store == old(reg.store) && reg.hits == old(reg.hits))
              && (k.marker(before) != k.wantedMarker(q) ==> r == Conflict)
              && (k.marker(before) == k.wantedMarker(q) && k.path(before) != k.wantedPath(q) ==> r == Retargeted)
  {
    ghost var start := |reg.replies|;
    var current := reg.Get(name);
    if current.ReadFailed? { return Error; }
    if current.Missing? {
      var report := reg.Post(name, k.created(q));
      if report.Created? { return Success(k.created(q)); }
      if report.Refused? { return Error; }
      if report.Ambiguous? {
        current := reg.Get(name);
        if !current.Found? { return Error; }
      }
    }
    hide Coherent, Reached, Follows;
    r := Reconcile(reg, k, name, q, current, start);
    hide OwnHits, Settled;
  }

  /** One conditional patch of an own resource that has just been read. */
  method PatchOwn<R(!new, ==), Q(!new)>(reg: Registry<R>, k: Kind<R, Q>, name: string, q: Q, found: Reading<R>,
      ghost start: nat, ghost attempt: nat)
    returns (report: PatchReport)
    requires reg.Valid() && found.Found? && Own(k, found.value, q) && k.differs(found.value, q)
    requires name in reg.store && reg.store[name] == Entry(found.value, found.etag)
    requires start < |reg.replies| && Pending(reg.replies[start..], found, attempt)
    modifies reg
    ensures reg.Valid() && reg.posts == old(reg.posts)
    ensures OwnHits(k, q, old(reg.hits), reg.hits) && |reg.hits| <= |old(reg.hits)| + 1
    ensures old(reg.replies) <= reg.replies && reg.replies[|reg.replies| - 1] == Patched(report)
    ensures report.Updated? ==>
              var updated := k.patched(found.value, q);
              && name in reg.store && reg.store[name].value == updated
              && Reached(k, updated, q) && (Coherent(k, q) ==> Settled(k, updated, q))
              && Follows(k, q, reg.replies[start..], Success(updated))
    ensures report.PatchFailed? ==> Follows(k, q, reg.replies[start..], Error)
    ensures report.Precondition? ==> Pending(reg.replies[start..], Missing, attempt + 1)
    ensures reg.quiet ==>
              && report.Updated? && reg.hits == old(reg.hits) + [found.value]
              && reg.store == old(reg.store)[name := Entry(k.patched(found.value, q), old(reg.next))]
  {
    ghost var t, hits0 := reg.replies[start..], reg.hits;
    var updated := k.patched(found.value, q);
    PatchReaches(k, found.value, q);
    if Coherent(k, q) { ReachedIsSettled(k, updated, q); }
    hide Coherent, Reached, Pending, Follows, Settled;
    report := reg.Patch(name, found.etag, updated);
    assert reg.replies[start..] == t + [Patched(report)];
    MoreHits(k, q, hits0, hits0, reg.hits, found.value);
    PatchFollows(k, q, t, found, attempt, report);
  }

  /** The rest of the claim, from the resource just read or one still to be read. */
  method Reconcile<R(!new, ==), Q(!new)>(reg: Registry<R>, k: Kind<R, Q>, name: string, q: Q, found: Reading<R>,
      ghost start: nat)
    returns (r: Claimed<R>)
    requires reg.Valid() && !found.ReadFailed? && (reg.quiet ==> found.Found?)
    requires found.Found? ==> name in reg.store && reg.store[name] == Entry(found.value, found.etag)
    requires start < |reg.replies| && Pending(reg.replies[start..], found, 0)
    modifies reg
    ensures reg.Valid() && reg.posts == old(reg.posts)
    ensures r.Success? ==> Reached(k, r.value, q) && (Coherent(k, q) ==> Settled(k, r.value, q))
    ensures r.Success? ==> name in reg.store && reg.store[name].value == r.value
    ensures r.Conflict? ==> name in reg.store && k.marker(reg.store[name].value) != k.wantedMarker(q)
    ensures OwnHits(k, q, old(reg.hits), reg.hits) && |reg.hits| <= |old(reg.hits)| + CLAIM_ATTEMPTS
    ensures old(reg.replies) <= reg.replies && Follows(k, q, reg.replies[start..], r)
    ensures reg.quiet && Own(k, found.value, q) && k.differs(found.value, q) ==>
              && r == Success(k.patched(found.value, q)) && reg.hits == old(reg.hits) + [found.value]
              && reg.store == old(reg.store)[name := Entry(k.patched(found.value, q), old(reg.next))]
    ensures reg.quiet && !(Own(k, found.value, q) && k.differs(found.value, q)) ==>
              && reg.hits == old(reg.hits) && reg.store == old(reg.store)
              && r == if k.marker(found.value) != k.wantedMarker(q) then Conflict
                      else if k.path(found.value) != k.wantedPath(q) then Retargeted else Success(found.value)
  {
    ghost var hits0 := reg.hits;
    var current := found;
    var attempt := 0;
    hide OwnHits, Coherent, Reached, Pending, Follows, Settled;
    while attempt < CLAIM_ATTEMPTS
      invariant 0 <= attempt <= CLAIM_ATTEMPTS && reg.Valid() && reg.posts == old(reg.posts)
      invariant old(reg.replies) <= reg.replies && Pending(reg.replies[start..], current, attempt)
      invariant attempt > 0 ==> current.Missing? && reg.replies[|reg.replies| - 1] == Patched(Precondition)
      invariant OwnHits(k, q, hits0, reg.hits) && |reg.hits| <= |hits0| + attempt
      invariant current.Found? ==> name in reg.store && reg.store[name] == Entry(current.value, current.etag)
      invariant reg.quiet ==>
                attempt == 0 && current == found && reg.next == old(reg.next) && reg.store == old(reg.store)
                && reg.hits == hits0
    {
      ghost var t := reg.replies[start..];
      if !current.Found? {
        current := reg.Get(name);
        assert reg.replies[start..] == t + [Read(current)];
        ReadPending(k, q, t, current, attempt);
        if !current.Found? { return Error; }
      }
      t := reg.replies[start..];
      FoundFollows(k, q, t, current, attempt);
      if k.marker(current.value) != k.wantedMarker(q) { return Conflict; }
      if k.path(current.value) != k.wantedPath(q) { return Retargeted; }
      if !k.differs(current.value, q) {
        FoundReaches(k, current.value, q);
        return Success(current.value);
      }
      ghost var hits1 := reg.hits;
      var report := PatchOwn(reg, k, name, q, current, start, attempt);
      HitsAppend(k, q, hits0, hits1, reg.hits);
      if report.Updated? { return Success(k.patched(current.value, q)); }
      if report.PatchFailed? { return Error; }
      current := Missing;
      attempt := attempt + 1;
    }
    ConflictsFollow(k, q, reg.replies[start..]);
    return Error;
  }
}
