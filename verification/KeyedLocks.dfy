/** The two tables of reference-counted locks.

    Create and delete requests lock a name and then a path; node requests lock a target. A lock object
    is entered into the table under a table mutex, which makes each such section one event; waiting
    for the lock object's own mutex is another. The two tables release in opposite order: one unlocks
    the object before it drops its reference, the other after. `Step` is total, so a run is any list
    of events. */
module KeyedLocks {
  type LockId = nat
  type Pid = nat

  datatype Flavour = Creates | Targets

  datatype Key = Name(n: string) | Path(p: string) | Target(t: string)

  /** The next step of a request: enter the table, wait for the object, work, or let go of the last
      lock in two halves. */
  datatype Stage = Entering | Waiting(lock: LockId) | Inside | Releasing | Leaving | Finished

  /** `locks` are the objects acquired so far, for the first `|locks|` of the keys. */
  datatype Thread = Thread(keys: seq<Key>, locks: seq<LockId>, stage: Stage)

  /** `table` maps keys to lock objects and `home` every object ever made back to its key. `owner` is
      the holder of an object's mutex, `remembered` are the target objects with a fingerprint. */
  datatype State = State(
    flavour: Flavour, table: map<Key, LockId>, home: map<LockId, Key>, refs: map<LockId, nat>,
    owner: map<LockId, Pid>, remembered: set<LockId>, next: LockId, threads: seq<Thread>)

  /** `more` decides whether a request that is inside goes on to its next key or starts to return. */
  datatype Event = Go(p: Pid, more: bool) | Remember(p: Pid, fingerprint: bool)

  // ---------------------------------------------------------------- steps

  /** No request but `p` is touched, and `p` does not change what it wants to lock. */
  predicate Alone(s: State, r: State, p: Pid)
    requires p < |s.threads|
  {
    |r.threads| == |s.threads| && r.threads == s.threads[p := r.threads[p]] && r.threads[p].keys == s.threads[p].keys
  }

  function Moved(s: State, p: Pid, t: Thread): (r: State)
    requires p < |s.threads|
    ensures t.keys == s.threads[p].keys ==> Alone(s, r, p)
  {
    s.(threads := s.threads[p := t])
  }

  function Register(s: State, p: Pid): (r: State)
    requires p < |s.threads| && |s.threads[p].locks| < |s.threads[p].keys|
    ensures Alone(s, r, p)
  {
    var t := s.threads[p];
    var k := t.keys[|t.locks|];
    if k in s.table then
      var l := s.table[k];
      Moved(s.(refs := s.refs[l := (if l in s.refs then s.refs[l] else 0) + 1]), p, t.(stage := Waiting(l)))
    else
      Moved(s.(table := s.table[k := s.next], home := s.home[s.next := k], refs := s.refs[s.next := 1],
          next := s.next + 1),
            p, t.(stage := Waiting(s.next)))
  }

  function Acquire(s: State, p: Pid): (r: State)
    requires p < |s.threads| && s.threads[p].stage.Waiting?
    ensures Alone(s, r, p)
  {
    var t := s.threads[p];
    if t.stage.lock in s.owner then s
    else Moved(s.(owner := s.owner[t.stage.lock := p]), p, t.(locks := t.locks + [t.stage.lock], stage := Inside))
  }

  function Unlock(s: State, l: LockId): State {
    s.(owner := s.owner - {l})
  }

  /** Drops one reference and, with the last one, the entry. */
  function Drop(s: State, k: Key, l: LockId): State {
    var left := if l in s.refs && s.refs[l] > 0 then s.refs[l] - 1 else 0;
    var s' := s.(refs := s.refs[l := left]);
    if left == 0 && (s.flavour.Creates? || (l !in s.remembered && k in s.table && s.table[k] == l))
    then s'.(table := s.table - {k}) else s'
  }

  function Top(t: Thread): LockId
    requires t.locks != []
  {
    t.locks[|t.locks| - 1]
  }

  function TopKey(t: Thread): Key
    requires 0 < |t.locks| <= |t.keys|
  {
    t.keys[|t.locks| - 1]
  }

  /** One step of one request. */
  function Advance(s: State, p: Pid, more: bool): (r: State)
    requires p < |s.threads| && |s.threads[p].locks| <= |s.threads[p].keys|
    ensures Alone(s, r, p)
  {
    var t := s.threads[p];
    match t.stage
    case Entering => if |t.locks| < |t.keys| then Register(s, p) else Moved(s, p, t.(stage := Releasing))
    case Waiting(_) => Acquire(s, p)
    case Inside => Moved(s, p, t.(stage := if more && |t.locks| < |t.keys| then Entering else Releasing))
    case Releasing =>
      if t.locks == [] then Moved(s, p, t.(stage := Finished))
      else Moved(if s.flavour.Creates? then Unlock(s, Top(t)) else Drop(s, TopKey(t), Top(t)), p, t.(stage := Leaving))
    case Leaving =>
      if t.locks == [] then Moved(s, p, t.(stage := Finished))
      else Moved(if s.flavour.Creates? then Drop(s, TopKey(t), Top(t)) else Unlock(s, Top(t)), p,
                 t.(locks := t.locks[..|t.locks| - 1], stage := Releasing))
    case Finished => s
  }

  function Step(s: State, e: Event): State {
    if e.p >= |s.threads| || |s.threads[e.p].locks| > |s.threads[e.p].keys| then s
    else match e {
      case Go(p, more) => Advance(s, p, more)
      case Remember(p, fingerprint) =>
        var t := s.threads[p];
        if s.flavour.Targets? && t.stage.Inside? && t.locks != []
        then s.(remembered := if fingerprint then s.remembered + {Top(t)} else s.remembered - {Top(t)}) else s
    }
  }

  function Run(s: State, events: seq<Event>): State
    decreases |events|
  {
    if events == [] then s else Step(Run(s, events[..|events| - 1]), events[|events| - 1])
  }

  ghost predicate DistinctKeys(t: Thread) {
    forall i, j | 0 <= i < j < |t.keys| :: t.keys[i] != t.keys[j]
  }

  /** Requests that have not started, and empty tables. */
  ghost predicate Initial(s: State) {
    && s.table == map[] && s.home == map[] && s.refs == map[] && s.owner == map[] && s.remembered == {}
    && forall t <- s.threads :: t.locks == [] && t.stage.Entering? && DistinctKeys(t)
  }

  // ---------------------------------------------------------------- what one request uses and owns

  type Use = (Key, LockId)

  ghost predicate Shape(t: Thread) {
    && |t.locks| <= |t.keys| && DistinctKeys(t)
    && (t.stage.Waiting? ==> |t.locks| < |t.keys|) && (t.stage.Leaving? ==> t.locks != [])
    && (t.stage.Finished? ==> t.locks == [])
  }

  /** How many of the acquired locks the request still refers to, or still holds the mutex of. */
  function Referred(f: Flavour, t: Thread): nat {
    if f.Targets? && t.stage.Leaving? && t.locks != [] then |t.locks| - 1 else |t.locks|
  }

  function Held(f: Flavour, t: Thread): nat {
    if f.Creates? && t.stage.Leaving? && t.locks != [] then |t.locks| - 1 else |t.locks|
  }

  function FirstUses(t: Thread, n: nat): set<Use>
    requires n <= |t.locks| <= |t.keys|
  {
    set i | 0 <= i < n :: (t.keys[i], t.locks[i])
  }

  /** The keys and objects the request has a reference on. */
  ghost function Used(f: Flavour, t: Thread): set<Use>
    requires Shape(t)
  {
    FirstUses(t, Referred(f, t)) + if t.stage.Waiting? then {(t.keys[|t.locks|], t.stage.lock)} else {}
  }

  /** Those whose mutex it holds. */
  ghost function Owned(f: Flavour, t: Thread): set<Use>
    requires Shape(t)
  {
    FirstUses(t, Held(f, t))
  }

  lemma FirstUsesGrow(t: Thread, n: nat)
    requires Shape(t) && n < |t.locks|
    ensures FirstUses(t, n + 1) == FirstUses(t, n) + {(t.keys[n], t.locks[n])}
    ensures (t.keys[n], t.locks[n]) !in FirstUses(t, n)
  {
  }

  lemma SameFirstUses(t: Thread, u: Thread, n: nat)
    requires t.keys == u.keys && n <= |t.locks| <= |t.keys| && n <= |u.locks| <= |u.keys|
    requires forall i | 0 <= i < n :: t.locks[i] == u.locks[i]
    ensures FirstUses(t, n) == FirstUses(u, n)
  {
  }

  lemma RegisterUses(f: Flavour, t: Thread, l: LockId)
    requires Shape(t) && t.stage.Entering? && |t.locks| < |t.keys|
    ensures var t' := t.(stage := Waiting(l));
            Shape(t') && Used(f, t') == Used(f, t) + {(t.keys[|t.locks|], l)} && Owned(f, t') == Owned(f, t)
            && (t.keys[|t.locks|], l) !in Used(f, t)
  {
    SameFirstUses(t, t.(stage := Waiting(l)), |t.locks|);
  }

  lemma AcquireUses(f: Flavour, t: Thread)
    requires Shape(t) && t.stage.Waiting?
    ensures var t' := t.(locks := t.locks + [t.stage.lock], stage := Inside);
            Shape(t') && Used(f, t') == Used(f, t) && Owned(f, t') == Owned(f, t) + {(t.keys[|t.locks|], t.stage.lock)}
  {
    var t' := t.(locks := t.locks + [t.stage.lock], stage := Inside);
    SameFirstUses(t, t', |t.locks|);
    FirstUsesGrow(t', |t.locks|);
  }

  /** Unlocking the mutex of the last lock: the first half in one table, the second in the other. */
  lemma UnlockUses(f: Flavour, t: Thread)
    requires Shape(t) && t.locks != []
    requires if f.Creates? then t.stage.Releasing? else t.stage.Leaving?
    ensures var t' := if f.Creates? then t.(stage := Leaving)
            else t.(locks := t.locks[..|t.locks| - 1], stage := Releasing);
            && Shape(t') && Used(f, t') == Used(f, t) && Owned(f, t') == Owned(f, t) - {(TopKey(t), Top(t))}
            && (TopKey(t), Top(t)) in Owned(f, t)
  {
    var t' := if f.Creates? then t.(stage := Leaving) else t.(locks := t.locks[..|t.locks| - 1], stage := Releasing);
    FirstUsesGrow(t, |t.locks| - 1);
    SameFirstUses(t, t', |t.locks| - 1);
    if f.Creates? { SameFirstUses(t, t', |t.locks|); }
  }

  lemma DropUses(f: Flavour, t: Thread)
    requires Shape(t) && t.locks != []
    requires if f.Creates? then t.stage.Leaving? else t.stage.Releasing?
    ensures var t' := if f.Creates? then t.(locks := t.locks[..|t.locks| - 1], stage := Releasing)
            else t.(stage := Leaving);
            && Shape(t') && Owned(f, t') == Owned(f, t) && Used(f, t') == Used(f, t) - {(TopKey(t), Top(t))}
            && (TopKey(t), Top(t)) in Used(f, t)
  {
    var t' := if f.Creates? then t.(locks := t.locks[..|t.locks| - 1], stage := Releasing) else t.(stage := Leaving);
    FirstUsesGrow(t, |t.locks| - 1);
    SameFirstUses(t, t', |t.locks| - 1);
    if f.Targets? { SameFirstUses(t, t', |t.locks|); }
  }

  // ---------------------------------------------------------------- invariant

  ghost predicate Uses(s: State, p: Pid, u: Use) {
    p < |s.threads| && Shape(s.threads[p]) && u in Used(s.flavour, s.threads[p])
  }

  ghost predicate Owns(s: State, p: Pid, u: Use) {
    p < |s.threads| && Shape(s.threads[p]) && u in Owned(s.flavour, s.threads[p])
  }

  /** The requests that refer to a lock object. */
  ghost function Users(s: State, l: LockId): set<Pid> {
    set p | 0 <= p < |s.threads| && l in s.home && Uses(s, p, (s.home[l], l))
  }

  /** A reference is to the object in the table. */
  ghost predicate UsesOk(s: State) {
    forall p: Pid, u: Use :: Uses(s, p, u) ==> u.0 in s.table && s.table[u.0] == u.1
  }

  ghost predicate OwnersOk(s: State) {
    && (forall p: Pid, u: Use ::
        Owns(s, p, u) ==> u.1 in s.home && s.home[u.1] == u.0 && u.1 in s.owner && s.owner[u.1] == p)
    && (forall l <- s.owner :: l in s.home && Owns(s, s.owner[l], (s.home[l], l)))
  }

  ghost predicate TableOk(s: State) {
    && (forall k <- s.table :: s.table[k] in s.home && s.home[s.table[k]] == k)
    && (forall l <- s.home :: l < s.next && l in s.refs)
    && (forall l <- s.remembered ::
        s.flavour.Targets? && l in s.home && s.home[l] in s.table && s.table[s.home[l]] == l)
  }

  /** The counter counts the requests that refer to the object. */
  ghost predicate CountsOk(s: State) {
    forall l <- s.refs :: l in s.home && s.refs[l] == |Users(s, l)|
  }

  ghost predicate EntriesOk(s: State) {
    forall k <- s.table :: s.table[k] in s.refs && (s.refs[s.table[k]] > 0 || s.table[k] in s.remembered)
  }

  ghost predicate Inv(s: State) {
    (forall t <- s.threads :: Shape(t)) && UsesOk(s) && OwnersOk(s) && TableOk(s) && CountsOk(s) && EntriesOk(s)
  }

  // ---------------------------------------------------------------- one event

  /** `s'` is `s` but for one request and the tables. */
  ghost predicate Apart(s: State, s': State, p: Pid) {
    && p < |s.threads| && |s'.threads| == |s.threads| && s'.flavour == s.flavour
    && (forall t <- s.threads :: Shape(t)) && (forall t <- s'.threads :: Shape(t))
    && forall q: Pid | q < |s.threads| && q != p :: s'.threads[q] == s.threads[q]
  }

  lemma OthersUse(s: State, s': State, p: Pid)
    requires Apart(s, s', p)
    ensures forall q: Pid, u: Use | q != p :: (Uses(s', q, u) <==> Uses(s, q, u)) && (Owns(s', q, u) <==> Owns(s, q, u))
  {
    hide Used, Owned, Shape;
  }

  lemma MovedApart(s: State, s': State, p: Pid, t': Thread)
    requires p < |s.threads| && (forall t <- s.threads :: Shape(t)) && Shape(t')
    requires s'.threads == s.threads[p := t'] && s'.flavour == s.flavour
    ensures Apart(s, s', p)
  {
    hide Shape;
  }

  ghost predicate UsesSame(s: State, s': State) {
    |s'.threads| == |s.threads| && forall q: Pid, u: Use :: Uses(s', q, u) <==> Uses(s, q, u)
  }

  ghost predicate UsesPlus(s: State, s': State, p: Pid, v: Use) {
    |s'.threads| == |s.threads| && p < |s.threads| && !Uses(s, p, v)
    && forall q: Pid, u: Use :: Uses(s', q, u) <==> Uses(s, q, u) || (q == p && u == v)
  }

  ghost predicate UsesMinus(s: State, s': State, p: Pid, v: Use) {
    |s'.threads| == |s.threads| && p < |s.threads| && Uses(s, p, v)
    && forall q: Pid, u: Use :: Uses(s', q, u) <==> Uses(s, q, u) && !(q == p && u == v)
  }

  ghost predicate OwnsSame(s: State, s': State) {
    forall q: Pid, u: Use :: Owns(s', q, u) <==> Owns(s, q, u)
  }

  ghost predicate OwnsPlus(s: State, s': State, p: Pid, v: Use) {
    forall q: Pid, u: Use :: Owns(s', q, u) <==> Owns(s, q, u) || (q == p && u == v)
  }

  ghost predicate OwnsMinus(s: State, s': State, p: Pid, v: Use) {
    Owns(s, p, v) && forall q: Pid, u: Use :: Owns(s', q, u) <==> Owns(s, q, u) && !(q == p && u == v)
  }

  lemma ThreadDelta(s: State, s': State, p: Pid, t': Thread)
    requires p < |s.threads| && (forall t <- s.threads :: Shape(t)) && Shape(t')
    requires s'.threads == s.threads[p := t'] && s'.flavour == s.flavour
    ensures forall t <- s'.threads :: Shape(t)
    ensures Used(s.flavour, t') == Used(s.flavour, s.threads[p]) ==> UsesSame(s, s')
    ensures Owned(s.flavour, t') == Owned(s.flavour, s.threads[p]) ==> OwnsSame(s, s')
    ensures forall v ::
            v !in Used(s.flavour, s.threads[p]) && Used(s.flavour, t') == Used(s.flavour, s.threads[p]) + {v} ==>
                UsesPlus(s, s', p, v)
    ensures forall v :: Owned(s.flavour, t') == Owned(s.flavour, s.threads[p]) + {v} ==> OwnsPlus(s, s', p, v)
    ensures forall v ::
            v in Used(s.flavour, s.threads[p]) && Used(s.flavour, t') == Used(s.flavour, s.threads[p]) - {v} ==>
                UsesMinus(s, s', p, v)
    ensures forall v ::
            v in Owned(s.flavour, s.threads[p]) && Owned(s.flavour, t') == Owned(s.flavour, s.threads[p]) - {v} ==>
                OwnsMinus(s, s', p, v)
  {
    MovedApart(s, s', p, t');
    OthersUse(s, s', p);
    hide Used, Owned, Shape, Apart;
  }

  // The tables' side: each section keeps the invariant, whatever the requests look like.

  lemma UsersSame(s: State, s': State)
    requires UsesSame(s, s') && s'.home == s.home
    ensures forall l :: Users(s', l) == Users(s, l)
  {
    hide Uses;
  }

  lemma CountsSame(s: State, s': State)
    requires CountsOk(s) && UsesSame(s, s') && s'.home == s.home && s'.refs == s.refs
    ensures CountsOk(s')
  {
    UsersSame(s, s');
    hide Uses, Users, UsesSame;
  }

  predicate HomeGrows(s: State, s': State) {
    forall l <- s.home :: l in s'.home && s'.home[l] == s.home[l]
  }

  lemma UsesOkSame(s: State, s': State)
    requires UsesOk(s) && UsesSame(s, s') && s'.table == s.table
    ensures UsesOk(s')
  {
    hide Uses;
  }

  lemma OwnersOkSame(s: State, s': State)
    requires OwnersOk(s) && OwnsSame(s, s') && HomeGrows(s, s') && s'.owner == s.owner
    ensures OwnersOk(s')
  {
    hide Owns;
  }

  /** Moving between stages without touching a table. */
  lemma StageInv(s: State, p: Pid, t': Thread)
    requires Inv(s) && p < |s.threads| && Shape(t')
    requires Used(s.flavour, t') == Used(s.flavour, s.threads[p])
             && Owned(s.flavour, t') == Owned(s.flavour, s.threads[p])
    ensures Inv(Moved(s, p, t'))
  {
    var s' := Moved(s, p, t');
    ThreadDelta(s, s', p, t');
    hide Used, Owned, Shape, Uses, Owns, UsesOk, OwnersOk, CountsOk, UsesSame, OwnsSame;
    UsesOkSame(s, s');
    OwnersOkSame(s, s');
    CountsSame(s, s');
  }

  lemma RegisterCounts(s: State, s': State, p: Pid, k: Key, l: LockId)
    requires UsesOk(s) && TableOk(s) && CountsOk(s) && UsesPlus(s, s', p, (k, l))
    requires if k in s.table then l == s.table[k] && l in s.refs && s'.home == s.home
             && s'.refs == s.refs[l := s.refs[l] + 1]
             else l == s.next && s'.home == s.home[l := k] && s'.refs == s.refs[l := 1]
    ensures CountsOk(s')
  {
    hide Uses;
    forall m | m in s'.refs ensures m in s'.home && s'.refs[m] == |Users(s', m)| {
      if m == l {
        if k in s.table { assert Users(s', l) == Users(s, l) + {p}; } else { assert Users(s', l) == {p}; }
      } else {
        assert Users(s', m) == Users(s, m);
      }
    }
  }

  lemma RegisterTables(s: State, s': State, p: Pid, k: Key, l: LockId)
    requires UsesOk(s) && TableOk(s) && EntriesOk(s) && UsesPlus(s, s', p, (k, l)) && s'.flavour == s.flavour
             && s'.remembered == s.remembered
    requires if k in s.table
             then l == s.table[k] && l in s.refs && s'.home == s.home && s'.refs == s.refs[l := s.refs[l] + 1]
                  && s'.table == s.table && s'.next == s.next
             else l == s.next && s'.home == s.home[l := k] && s'.refs == s.refs[l := 1]
                  && s'.table == s.table[k := l] && s'.next == s.next + 1
    ensures UsesOk(s') && TableOk(s') && EntriesOk(s') && HomeGrows(s, s')
  {
    hide Uses;
  }

  lemma RegisterInv(s: State, p: Pid)
    requires Inv(s) && p < |s.threads|
    requires s.threads[p].stage.Entering? && |s.threads[p].locks| < |s.threads[p].keys|
    ensures Inv(Register(s, p))
  {
    var t := s.threads[p];
    assert Shape(t);
    var k := t.keys[|t.locks|];
    assert k in s.table ==> s.table[k] in s.refs;
    var l := if k in s.table then s.table[k] else s.next;
    var s' := Register(s, p);
    RegisterUses(s.flavour, t, l);
    ThreadDelta(s, s', p, t.(stage := Waiting(l)));
    hide Used, Owned, Shape, Uses, Owns, UsesOk, OwnersOk, CountsOk, UsesPlus, OwnsSame, TableOk, EntriesOk, HomeGrows;
    RegisterCounts(s, s', p, k, l);
    RegisterTables(s, s', p, k, l);
    OwnersOkSame(s, s');
  }

  lemma AcquireOwners(s: State, s': State, p: Pid, k: Key, l: LockId)
    requires OwnersOk(s) && OwnsPlus(s, s', p, (k, l)) && s'.home == s.home && l !in s.owner
             && s'.owner == s.owner[l := p]
    requires l in s.home && s.home[l] == k
    ensures OwnersOk(s')
  {
    hide Owns;
  }

  lemma AcquireInv(s: State, p: Pid)
    requires Inv(s) && p < |s.threads| && s.threads[p].stage.Waiting?
    ensures Inv(Acquire(s, p))
  {
    var t := s.threads[p];
    var l := t.stage.lock;
    assert Shape(t);
    if l !in s.owner {
      var s' := Acquire(s, p);
      var k := t.keys[|t.locks|];
      AcquireUses(s.flavour, t);
      ThreadDelta(s, s', p, t.(locks := t.locks + [l], stage := Inside));
      assert Uses(s, p, (k, l));
      assert l in s.home && s.home[l] == k;
      hide Used, Owned, Shape, Uses, Owns, UsesOk, OwnersOk, CountsOk, UsesSame, OwnsPlus, TableOk, EntriesOk;
      CountsSame(s, s');
      UsesOkSame(s, s');
      AcquireOwners(s, s', p, k, l);
      assert TableOk(s') && EntriesOk(s') by { SameTables(s, s'); }
    }
  }

  lemma SameTables(s: State, s': State)
    requires TableOk(s) && EntriesOk(s)
    requires s'.flavour == s.flavour && s'.table == s.table && s'.home == s.home && s'.refs == s.refs
             && s'.remembered == s.remembered && s'.next == s.next
    ensures TableOk(s') && EntriesOk(s')
  {
  }

  lemma UnlockOwners(s: State, s': State, p: Pid, k: Key, l: LockId)
    requires OwnersOk(s) && OwnsMinus(s, s', p, (k, l)) && s'.home == s.home && s'.owner == s.owner - {l}
    ensures OwnersOk(s')
  {
    hide Owns;
  }

  lemma UnlockInv(s: State, p: Pid, t': Thread)
    requires Inv(s) && p < |s.threads| && s.threads[p].locks != [] && Shape(s.threads[p]) && Shape(t')
    requires var u := (TopKey(s.threads[p]), Top(s.threads[p]));
             && u in Owned(s.flavour, s.threads[p])
             && Owned(s.flavour, t') == Owned(s.flavour, s.threads[p]) - {u}
             && Used(s.flavour, t') == Used(s.flavour, s.threads[p])
    ensures Inv(Moved(Unlock(s, Top(s.threads[p])), p, t'))
  {
    var t := s.threads[p];
    var k, l := TopKey(t), Top(t);
    var s' := Moved(Unlock(s, l), p, t');
    ThreadDelta(s, s', p, t');
    hide Used, Owned, Shape, Uses, Owns, UsesOk, OwnersOk, CountsOk, UsesSame, OwnsMinus, TableOk, EntriesOk;
    CountsSame(s, s');
    UsesOkSame(s, s');
    UnlockOwners(s, s', p, k, l);
    SameTables(s, s');
  }

  lemma DropCounts(s: State, s': State, p: Pid, k: Key, l: LockId)
    requires UsesOk(s) && TableOk(s) && CountsOk(s) && UsesMinus(s, s', p, (k, l))
    requires s'.home == s.home && l in s.refs && s'.refs == s.refs[l := if s.refs[l] > 0 then s.refs[l] - 1 else 0]
    ensures CountsOk(s')
  {
    hide Uses;
    assert p in Users(s, l);
    forall m | m in s'.refs ensures m in s'.home && s'.refs[m] == |Users(s', m)| {
      if m == l {
        assert Users(s', l) == Users(s, l) - {p};
      } else {
        assert Users(s', m) == Users(s, m);
      }
    }
  }

  /** With the last reference gone nobody uses the key any more. */
  lemma NobodyLeft(s: State, k: Key, l: LockId)
    requires CountsOk(s) && l in s.refs && s.refs[l] == 0 && s.home[l] == k
    ensures forall q: Pid :: !Uses(s, q, (k, l))
  {
    assert Users(s, l) == {};
    forall q: Pid ensures Uses(s, q, (k, l)) ==> q in Users(s, l) { }
  }

  lemma UsedIsListed(s: State, p: Pid, u: Use)
    requires UsesOk(s) && TableOk(s) && Uses(s, p, u)
    ensures u.0 in s.table && s.table[u.0] == u.1 && u.1 in s.home && s.home[u.1] == u.0 && u.1 in s.refs
  {
    hide Uses;
  }

  /** The entry stays. */
  lemma EntryKept(s: State, s': State, p: Pid, k: Key, l: LockId)
    requires UsesOk(s) && TableOk(s) && EntriesOk(s) && UsesMinus(s, s', p, (k, l))
    requires s'.flavour == s.flavour && s'.remembered == s.remembered && s'.home == s.home && s'.next == s.next
             && s'.table == s.table
    requires l in s.refs && l in s'.refs && s'.refs == s.refs[l := s'.refs[l]] && (s'.refs[l] > 0 || l in s.remembered)
    ensures UsesOk(s') && TableOk(s') && EntriesOk(s')
  {
    hide Uses;
  }

  /** The entry goes with its last user. */
  lemma EntryRemoved(s: State, s': State, p: Pid, k: Key, l: LockId)
    requires UsesOk(s) && TableOk(s) && EntriesOk(s) && UsesMinus(s, s', p, (k, l)) && forall q: Pid ::
             !Uses(s', q, (k, l))
    requires s'.flavour == s.flavour && s'.remembered == s.remembered && s'.home == s.home && s'.next == s.next
    requires k in s.table && s.table[k] == l && s'.table == s.table - {k} && l !in s.remembered
    requires l in s.refs && l in s'.refs && s'.refs == s.refs[l := s'.refs[l]]
    ensures UsesOk(s') && TableOk(s') && EntriesOk(s')
  {
    assert UsesOk(s') by {
      forall q: Pid, u: Use | Uses(s', q, u) ensures u.0 in s'.table && s'.table[u.0] == u.1 {
        assert Uses(s, q, u);
      }
    }
    hide Uses, UsesOk, UsesMinus;
  }

  lemma DropTables(s: State, s': State, p: Pid, k: Key, l: LockId)
    requires UsesOk(s) && TableOk(s) && EntriesOk(s) && CountsOk(s') && UsesMinus(s, s', p, (k, l))
    requires s'.flavour == s.flavour && s'.remembered == s.remembered && s'.home == s.home && s'.next == s.next
    requires k in s.table && s.table[k] == l && l in s.refs
    requires s'.refs == s.refs[l := if s.refs[l] > 0 then s.refs[l] - 1 else 0]
    requires s'.table == if s'.refs[l] == 0 && (s.flavour.Creates? || l !in s.remembered) then s.table - {k}
             else s.table
    ensures UsesOk(s') && TableOk(s') && EntriesOk(s')
  {
    assert s.home[l] == k && (l in s.remembered ==> s.flavour.Targets?);
    if s'.refs[l] == 0 { NobodyLeft(s', k, l); }
    hide Uses, CountsOk, UsesOk, UsesMinus, TableOk, EntriesOk;
    if s'.refs[l] == 0 && l !in s.remembered {
      EntryRemoved(s, s', p, k, l);
    } else {
      EntryKept(s, s', p, k, l);
    }
  }

  lemma DropInv(s: State, s': State, p: Pid, k: Key, l: LockId)
    requires Inv(s) && (forall t <- s'.threads :: Shape(t)) && UsesMinus(s, s', p, (k, l)) && OwnsSame(s, s')
    requires s' == Drop(s, k, l).(threads := s'.threads)
    ensures Inv(s')
  {
    hide Shape, Uses, Owns, OwnersOk, CountsOk, OwnsSame, TableOk, EntriesOk, UsesOk;
    assert Uses(s, p, (k, l));
    hide UsesMinus;
    UsedIsListed(s, p, (k, l));
    DropCounts(s, s', p, k, l);
    DropTables(s, s', p, k, l);
    OwnersOkSame(s, s');
  }

  // ---------------------------------------------------------------- every event

  lemma ReleasingInv(s: State, p: Pid, more: bool)
    requires Inv(s) && p < |s.threads| && s.threads[p].stage.Releasing?
    ensures |s.threads[p].locks| <= |s.threads[p].keys| && Inv(Advance(s, p, more))
  {
    var t := s.threads[p];
    assert Shape(t);
    if t.locks == [] {
      StageInv(s, p, t.(stage := Finished));
    } else if s.flavour.Creates? {
      UnlockUses(s.flavour, t);
      UnlockInv(s, p, t.(stage := Leaving));
    } else {
      DropUses(s.flavour, t);
      ThreadDelta(s, Moved(Drop(s, TopKey(t), Top(t)), p, t.(stage := Leaving)), p, t.(stage := Leaving));
      hide Inv, UsesMinus, OwnsSame, Used, Owned, Shape;
      DropInv(s, Moved(Drop(s, TopKey(t), Top(t)), p, t.(stage := Leaving)), p, TopKey(t), Top(t));
    }
  }

  lemma LeavingInv(s: State, p: Pid, more: bool)
    requires Inv(s) && p < |s.threads| && s.threads[p].stage.Leaving?
    ensures |s.threads[p].locks| <= |s.threads[p].keys| && Inv(Advance(s, p, more))
  {
    var t := s.threads[p];
    assert Shape(t);
    var t' := t.(locks := t.locks[..|t.locks| - 1], stage := Releasing);
    if s.flavour.Targets? {
      UnlockUses(s.flavour, t);
      UnlockInv(s, p, t');
    } else {
      DropUses(s.flavour, t);
      ThreadDelta(s, Moved(Drop(s, TopKey(t), Top(t)), p, t'), p, t');
      hide Inv, UsesMinus, OwnsSame, Used, Owned, Shape;
      DropInv(s, Moved(Drop(s, TopKey(t), Top(t)), p, t'), p, TopKey(t), Top(t));
    }
  }

  lemma SameUses(f: Flavour, t: Thread, stage: Stage)
    requires Shape(t) && (t.stage.Entering? || t.stage.Inside? || t.stage.Releasing?)
    requires stage.Entering? || stage.Inside? || stage.Releasing?
    ensures var t' := t.(stage := stage); Shape(t') && Used(f, t') == Used(f, t) && Owned(f, t') == Owned(f, t)
  {
    SameFirstUses(t, t.(stage := stage), |t.locks|);
  }

  lemma AdvanceInv(s: State, p: Pid, more: bool)
    requires Inv(s) && p < |s.threads|
    ensures |s.threads[p].locks| <= |s.threads[p].keys| && Inv(Advance(s, p, more))
  {
    var t := s.threads[p];
    assert Shape(t);
    match t.stage
    case Entering =>
      if |t.locks| < |t.keys| {
        RegisterInv(s, p);
      } else {
        SameUses(s.flavour, t, Releasing);
        StageInv(s, p, t.(stage := Releasing));
      }
    case Waiting(_) => AcquireInv(s, p);
    case Inside =>
      var next := if more && |t.locks| < |t.keys| then Entering else Releasing;
      SameUses(s.flavour, t, next);
      StageInv(s, p, t.(stage := next));
    case Releasing => ReleasingInv(s, p, more);
    case Leaving => LeavingInv(s, p, more);
    case Finished =>
  }

  lemma RememberTables(s: State, s': State, k: Key, l: LockId)
    requires TableOk(s) && EntriesOk(s) && s.flavour.Targets?
    requires k in s.table && s.table[k] == l && l in s.home && s.home[l] == k && l in s.refs && s.refs[l] > 0
    requires s' == s.(remembered := s'.remembered) && s.remembered - {l} <= s'.remembered <= s.remembered + {l}
    ensures TableOk(s') && EntriesOk(s')
  {
  }

  lemma TopIsUsed(s: State, p: Pid)
    requires Inv(s) && p < |s.threads| && s.threads[p].locks != [] && !s.threads[p].stage.Leaving?
    ensures |s.threads[p].locks| <= |s.threads[p].keys|
    ensures var u := (TopKey(s.threads[p]), Top(s.threads[p])); Uses(s, p, u) && Owns(s, p, u)
  {
    var t := s.threads[p];
    assert Shape(t);
    FirstUsesGrow(t, |t.locks| - 1);
  }

  lemma UsedIsCounted(s: State, p: Pid, u: Use)
    requires UsesOk(s) && TableOk(s) && CountsOk(s) && Uses(s, p, u)
    ensures u.1 in s.refs && s.refs[u.1] > 0
  {
    UsedIsListed(s, p, u);
    assert p in Users(s, u.1);
    hide Uses;
  }

  /** Remembering or forgetting a fingerprint: only the holder does, so the entry is in use. */
  lemma RememberInv(s: State, e: Event)
    requires Inv(s) && e.Remember?
    ensures Inv(Step(s, e))
  {
    var s' := Step(s, e);
    if s' != s {
      TopIsUsed(s, e.p);
      var u := (TopKey(s.threads[e.p]), Top(s.threads[e.p]));
      assert UsesSame(s, s') && OwnsSame(s, s');
      hide Uses, Owns, UsesOk, OwnersOk, CountsOk, UsesSame, OwnsSame, TableOk, EntriesOk;
      UsedIsListed(s, e.p, u);
      UsedIsCounted(s, e.p, u);
      RememberTables(s, s', u.0, u.1);
      UsesOkSame(s, s');
      OwnersOkSame(s, s');
      CountsSame(s, s');
    }
  }

  lemma StepInv(s: State, e: Event)
    requires Inv(s)
    ensures Inv(Step(s, e))
  {
    match e
    case Go(p, more) =>
      if p < |s.threads| {
        hide Inv, Advance;
        AdvanceInv(s, p, more);
      }
    case Remember(_, _) => RememberInv(s, e);
  }

  lemma InitialInv(s: State)
    requires Initial(s)
    ensures Inv(s)
  {
  }

  lemma {:induction false} RunInv(s: State, events: seq<Event>)
    requires Initial(s)
    ensures Inv(Run(s, events))
    decreases |events|
  {
    hide Inv;
    if events == [] {
      InitialInv(s);
    } else {
      RunInv(s, events[..|events| - 1]);
      StepInv(Run(s, events[..|events| - 1]), events[|events| - 1]);
    }
  }

  // ---------------------------------------------------------------- main results

  /** The request is working under the lock of `k`: it has acquired it and not begun to let go of it. */
  predicate InSection(t: Thread, k: Key) {
    exists i | 0 <= i < |t.locks| && i < |t.keys| :: t.keys[i] == k && !(t.stage.Leaving? && i == |t.locks| - 1)
  }

  /** Inside, every key locked so far is worked under; the last one no longer once it is let go of. */
  lemma SectionIff(t: Thread, k: Key)
    requires |t.locks| <= |t.keys|
    ensures !t.stage.Leaving? ==> (InSection(t, k) <==> k in t.keys[..|t.locks|])
    ensures t.stage.Leaving? && t.locks != [] ==> (InSection(t, k) <==> k in t.keys[..|t.locks| - 1])
  {
    var n := if t.stage.Leaving? && t.locks != [] then |t.locks| - 1 else |t.locks|;
    if k in t.keys[..n] {
      var i :| 0 <= i < n && t.keys[..n][i] == k;
      assert t.keys[i] == k;
    }
  }

  /** The object whose mutex a request took last remembers a fingerprint or not, as the request says. */
  lemma RemembersAsTold(s: State, p: Pid, fingerprint: bool)
    requires s.flavour.Targets? && p < |s.threads| && s.threads[p].stage.Inside?
    requires 0 < |s.threads[p].locks| <= |s.threads[p].keys|
    ensures var now, l := Step(s, Remember(p, fingerprint)).remembered, s.threads[p].locks[|s.threads[p].locks| - 1];
            (l in now <==> fingerprint) && now - {l} == s.remembered - {l}
  {
  }

  lemma SectionOwns(s: State, p: Pid, k: Key)
    requires Inv(s) && p < |s.threads| && InSection(s.threads[p], k)
    ensures exists l :: Uses(s, p, (k, l)) && Owns(s, p, (k, l))
  {
    var t := s.threads[p];
    assert Shape(t);
    var i :| 0 <= i < |t.locks| && t.keys[i] == k && !(t.stage.Leaving? && i == |t.locks| - 1);
    assert (t.keys[i], t.locks[i]) in FirstUses(t, Referred(s.flavour, t));
    assert (t.keys[i], t.locks[i]) in FirstUses(t, Held(s.flavour, t));
    assert Uses(s, p, (k, t.locks[i])) && Owns(s, p, (k, t.locks[i]));
  }

  /** In every run of either table no two requests work under the same key at the same time, although
      the objects come and go. */
  lemma MutualExclusion(s: State, events: seq<Event>, p: Pid, q: Pid, k: Key)
    requires Initial(s)
    requires p < |Run(s, events).threads| && q < |Run(s, events).threads|
    requires InSection(Run(s, events).threads[p], k) && InSection(Run(s, events).threads[q], k)
    ensures p == q
  {
    RunInv(s, events);
    var now := Run(s, events);
    SectionOwns(now, p, k);
    SectionOwns(now, q, k);
    hide Inv, Uses, Owns, Run, InSection;
    var l :| Uses(now, p, (k, l)) && Owns(now, p, (k, l));
    var m :| Uses(now, q, (k, m)) && Owns(now, q, (k, m));
    OneOwner(now, p, q, k, l, m);
  }

  lemma OneOwner(s: State, p: Pid, q: Pid, k: Key, l: LockId, m: LockId)
    requires Inv(s) && Uses(s, p, (k, l)) && Owns(s, p, (k, l)) && Uses(s, q, (k, m)) && Owns(s, q, (k, m))
    ensures p == q
  {
    hide Uses, Owns, Shape, TableOk, CountsOk, EntriesOk;
  }

  /** An entry exists exactly while its object is referred to or, in the target table, remembers a
      fingerprint; and its counter is the number of requests that refer to it. */
  lemma EntryExistsIff(s: State, events: seq<Event>, k: Key)
    requires Initial(s)
    ensures var now := Run(s, events);
            && (k in now.table <==>
                  || (exists p: Pid, l: LockId :: Uses(now, p, (k, l)))
                  || (now.flavour.Targets? && exists l <- now.remembered :: l in now.home && now.home[l] == k))
            && (k in now.table ==> now.table[k] in now.refs && now.refs[now.table[k]] == |Users(now, now.table[k])|)
  {
    RunInv(s, events);
    EntryOfKey(Run(s, events), k);
  }

  lemma EntryOfKey(s: State, k: Key)
    requires Inv(s)
    ensures k in s.table <==> || (exists p: Pid, l: LockId :: Uses(s, p, (k, l)))
                              || (s.flavour.Targets? && exists l <- s.remembered :: l in s.home && s.home[l] == k)
    ensures k in s.table ==> s.table[k] in s.refs && s.refs[s.table[k]] == |Users(s, s.table[k])|
  {
    hide Uses, Owns, Shape, OwnersOk;
    if k in s.table {
      var l := s.table[k];
      if s.refs[l] > 0 {
        assert Users(s, l) != {};
        var p :| p in Users(s, l);
        assert Uses(s, p, (k, l));
      }
    }
  }

  // ---------------------------------------------------------------- no deadlock

  /** Names come before paths, and a target is locked alone. */
  function Level(k: Key): nat {
    if k.Path? then 1 else 0
  }

  ghost predicate Ordered(t: Thread) {
    forall i, j | 0 <= i < j < |t.keys| :: Level(t.keys[i]) < Level(t.keys[j])
  }

  /** The callers' orders: one key alone, or a path after a key of another kind. */
  lemma OrderedIff(t: Thread)
    ensures Ordered(t) <==> |t.keys| <= 1 || (|t.keys| == 2 && !t.keys[0].Path? && t.keys[1].Path?)
  {
    assert |t.keys| >= 2 && Ordered(t) ==> Level(t.keys[0]) < Level(t.keys[1]);
    assert |t.keys| > 2 && Ordered(t) ==> Level(t.keys[1]) < Level(t.keys[2]);
  }

  predicate Runnable(s: State, p: Pid) {
    p < |s.threads| && !s.threads[p].stage.Finished?
        && (s.threads[p].stage.Waiting? ==> s.threads[p].stage.lock !in s.owner)
  }

  lemma HolderIsFurther(s: State, p: Pid)
    requires Inv(s) && (forall t <- s.threads :: Ordered(t))
    requires p < |s.threads| && s.threads[p].stage.Waiting? && s.threads[p].stage.lock in s.owner
    ensures |s.threads[p].locks| < |s.threads[p].keys|
    ensures var q := s.owner[s.threads[p].stage.lock];
            && q < |s.threads| && !s.threads[q].stage.Finished? && |s.threads[q].locks| <= |s.threads[q].keys|
            && (s.threads[q].stage.Waiting? ==>
                  && |s.threads[q].locks| < |s.threads[q].keys|
                  && Level(s.threads[p].keys[|s.threads[p].locks|]) < Level(s.threads[q].keys[|s.threads[q].locks|]))
  {
    var t := s.threads[p];
    var l := t.stage.lock;
    assert Shape(t);
    var k := t.keys[|t.locks|];
    assert Uses(s, p, (k, l));
    var q := s.owner[l];
    assert Owns(s, q, (s.home[l], l));
    assert s.home[l] == k by { hide Uses, Owns, Shape; }
    var u := s.threads[q];
    assert Shape(u) && Ordered(u);
    var i :| 0 <= i < Held(s.flavour, u) && u.keys[i] == k && u.locks[i] == l;
  }

  /** While any request is unfinished, some request can take its next step. */
  lemma SomeoneCanMove(s: State, p: Pid) returns (q: Pid)
    requires Inv(s) && (forall t <- s.threads :: Ordered(t))
    requires p < |s.threads| && !s.threads[p].stage.Finished?
    ensures Runnable(s, q)
    decreases if s.threads[p].stage.Waiting? && |s.threads[p].locks| < |s.threads[p].keys|
              then 2 - Level(s.threads[p].keys[|s.threads[p].locks|]) else 3
  {
    if Runnable(s, p) {
      q := p;
    } else {
      HolderIsFurther(s, p);
      var r := s.owner[s.threads[p].stage.lock];
      if Runnable(s, r) { q := r; } else { q := SomeoneCanMove(s, r); }
    }
  }

  /** Steps a request still needs if it asks for no further lock. */
  function Rank(t: Thread): nat {
    match t.stage
    case Entering => if |t.locks| < |t.keys| then 2 * |t.locks| + 6 else 2 * |t.locks| + 2
    case Waiting(_) => 2 * |t.locks| + 5
    case Inside => 2 * |t.locks| + 2
    case Releasing => 2 * |t.locks| + 1
    case Leaving => 2 * |t.locks|
    case Finished => 0
  }

  function Work(ts: seq<Thread>): nat {
    if ts == [] then 0 else Rank(ts[0]) + Work(ts[1..])
  }

  lemma {:induction false} WorkShrinks(ts: seq<Thread>, p: nat, t': Thread)
    requires p < |ts| && Rank(t') < Rank(ts[p])
    ensures Work(ts[p := t']) < Work(ts)
  {
    if p == 0 {
      assert ts[0 := t'][1..] == ts[1..];
    } else {
      WorkShrinks(ts[1..], p - 1, t');
      assert ts[p := t'][1..] == ts[1..][p - 1 := t'];
    }
  }

  lemma MoveMakesProgress(s: State, p: Pid)
    requires (forall t <- s.threads :: Shape(t)) && Runnable(s, p)
    ensures var s' := Step(s, Go(p, false));
            s'.threads == s.threads[p := s'.threads[p]] && Rank(s'.threads[p]) < Rank(s.threads[p])
            && s'.threads[p].keys == s.threads[p].keys
  {
    assert Shape(s.threads[p]);
  }

  lemma {:induction false} RunFirst(s: State, e: Event, events: seq<Event>)
    ensures Run(s, [e] + events) == Run(Step(s, e), events)
    decreases |events|
  {
    hide Step;
    if events == [] {
      assert [e][..0] == [];
      assert Run(s, [e][..0]) == s && [e] + events == [e];
    } else {
      assert ([e] + events)[..|events|] == [e] + events[..|events| - 1];
      RunFirst(s, e, events[..|events| - 1]);
    }
  }

  ghost predicate AllFinished(s: State) {
    forall t <- s.threads :: t.stage.Finished?
  }

  lemma EveryoneCanFinish(s: State) returns (events: seq<Event>)
    requires Inv(s) && forall t <- s.threads :: Ordered(t)
    ensures AllFinished(Run(s, events))
    decreases Work(s.threads)
  {
    if p: Pid :| p < |s.threads| && !s.threads[p].stage.Finished? {
      var q := SomeoneCanMove(s, p);
      var e := Go(q, false);
      var s' := Step(s, e);
      MoveMakesProgress(s, q);
      StepInv(s, e);
      WorkShrinks(s.threads, q, s'.threads[q]);
      hide Inv, Step, Run, Runnable;
      forall t | t in s'.threads ensures Ordered(t) {
        var i :| 0 <= i < |s'.threads| && s'.threads[i] == t;
        assert t.keys == s.threads[i].keys && Ordered(s.threads[i]);
      }
      var rest := EveryoneCanFinish(s');
      RunFirst(s, e, rest);
      events := [e] + rest;
    } else {
      events := [];
    }
  }

  lemma StepKeepsKeys(s: State, e: Event)
    ensures |Step(s, e).threads| == |s.threads|
    ensures forall p: Pid | p < |s.threads| :: Step(s, e).threads[p].keys == s.threads[p].keys
  {
    hide Advance;
  }

  lemma {:induction false} RunKeepsKeys(s: State, events: seq<Event>)
    ensures |Run(s, events).threads| == |s.threads|
    ensures forall p: Pid | p < |s.threads| :: Run(s, events).threads[p].keys == s.threads[p].keys
    decreases |events|
  {
    if events != [] {
      RunKeepsKeys(s, events[..|events| - 1]);
      StepKeepsKeys(Run(s, events[..|events| - 1]), events[|events| - 1]);
      hide Step;
    }
  }

  /** No deadlock: with names locked before paths and targets locked alone, from every state that any run
      reaches there is a continuation in which every request finishes. */
  lemma NoDeadlock(s: State, events: seq<Event>)
    requires Initial(s)
    requires forall t <- s.threads :: |t.keys| <= 1 || (|t.keys| == 2 && t.keys[0].Name? && t.keys[1].Path?)
    ensures exists more :: AllFinished(Run(Run(s, events), more))
  {
    RunInv(s, events);
    forall t | t in s.threads ensures Ordered(t) { OrderedIff(t); }
    RunKeepsKeys(s, events);
    var now := Run(s, events);
    hide Run, Inv;
    forall t | t in now.threads ensures Ordered(t) {
      var i :| 0 <= i < |now.threads| && now.threads[i] == t;
      assert t.keys == s.threads[i].keys && Ordered(s.threads[i]);
    }
    var more := EveryoneCanFinish(now);
  }
}
