/** Bounded read-modify-write loops on one versioned document.

    ACLs, bucket policies and quotas are all changed the same way: read the document and its ETag,
    compute a new value, write it back under If-Match, and on a conflict start again. Here any number
    of such loops run interleaved against one document. As in the volume protocol a call is one event
    with an arbitrary outcome, and a lost response is a committed write reported as `Fault`. The HTTP
    client repeats a PUT whose response it did not get: `Replayed` is a sending that took effect before
    such a repetition. A repeated conditional PUT then finds a newer version and ends as `Conflict`. */
module EtagLoop {
  type Pid = nat

  datatype Document<D> = Missing | Stored(value: D, version: nat)

  /** What the loop does when the read finds no document. */
  datatype OnMissing<D> = GiveUp | NothingToDo | CreateNew(value: D) | PutBlind(value: D)

  /** One kind of loop: the value it writes, when it finds nothing to write, and its retry bound.
      `empty` is the value a missing document stands for. */
  datatype Loop<!D(!new), !Op(!new)> = Loop(
    apply: (Op, D) -> D, settled: (Op, D) -> bool, onMissing: Op -> OnMissing<D>, empty: D, attempts: nat)

  /** A missing document is treated as the empty one, whichever way it is created. */
  ghost predicate Coherent<D(!new), Op(!new)>(l: Loop<D, Op>) {
    forall op :: match l.onMissing(op)
      case CreateNew(v) => v == l.apply(op, l.empty)
      case PutBlind(v) => v == l.apply(op, l.empty)
      case _ => true
  }

  datatype Guard = IfMatch(version: nat) | IfMissing | Always

  /** `at` is the number of writes committed before the point where the operation took effect. */
  datatype Pc<D> =
    | Reading(attempt: nat)
    | Writing(attempt: nat, guard: Guard, next: D)
    | Succeeded(wrote: bool, at: nat)
    | NoDocument
    | Failed

  datatype Client<D, Op> = Client(op: Op, start: nat, pc: Pc<D>)

  /** `log` lists the operations whose writes took effect, in that order. */
  datatype State<D, Op> = State(doc: Document<D>, nextVersion: nat, clients: map<Pid, Client<D, Op>>, log: seq<Op>)

  datatype Report = Ok | Conflict | Fault

  datatype Event<Op> =
    | Start(pid: Pid, op: Op)
    | Call(pid: Pid, commit: bool, report: Report)
    | Replayed(pid: Pid)
    | Crash(pid: Pid)

  function Value<D(!new), Op(!new)>(l: Loop<D, Op>, doc: Document<D>): D {
    if doc.Stored? then doc.value else l.empty
  }

  predicate Passes<D>(g: Guard, doc: Document<D>) {
    match g
    case IfMatch(v) => doc.Stored? && doc.version == v
    case IfMissing => doc.Missing?
    case Always => true
  }

  function AfterRead<D(!new), Op(!new)>(l: Loop<D, Op>, op: Op, attempt: nat, doc: Document<D>, committed: nat): Pc<D> {
    match doc
    case Stored(d, v) =>
      if l.settled(op, d) then Succeeded(false, committed) else Writing(attempt, IfMatch(v), l.apply(op, d))
    case Missing =>
      match l.onMissing(op) {
        case GiveUp => Failed
        case NothingToDo => NoDocument
        case CreateNew(d) => Writing(attempt, IfMissing, d)
        case PutBlind(d) => Writing(attempt, Always, d)
      }
  }

  function Commit<D(!new), Op(!new)>(s: State<D, Op>, op: Op, next: D): State<D, Op> {
    s.(doc := Stored(next, s.nextVersion), nextVersion := s.nextVersion + 1, log := s.log + [op])
  }

  /** The document, the log and the client after one call of `c`. */
  function Advance<D(!new), Op(!new)>(l: Loop<D, Op>, s: State<D, Op>, c: Client<D, Op>, commit: bool, report: Report)
    : (State<D, Op>, Pc<D>)
  {
    match c.pc
    case Reading(n) =>
      (s, if report.Ok? then AfterRead(l, c.op, n, s.doc, |s.log|) else Failed)
    case Writing(n, guard, next) =>
      var hit := commit && Passes(guard, s.doc);
      (if hit then Commit(s, c.op, next) else s,
       match report
       case Ok => if hit then Succeeded(true, |s.log|) else Failed
       case Conflict => if n + 1 < l.attempts then Reading(n + 1) else Failed
       case Fault => Failed)
    case _ => (s, c.pc)
  }

  function Step<D(!new), Op(!new)>(l: Loop<D, Op>, s: State<D, Op>, e: Event<Op>): State<D, Op> {
    match e
    case Start(p, op) =>
      if p in s.clients then s else s.(clients := s.clients[p := Client(op, |s.log|, Reading(0))])
    case Replayed(p) =>
      if p !in s.clients || !s.clients[p].pc.Writing? then s
      else
        var Writing(_, guard, next) := s.clients[p].pc;
        if guard.IfMissing? || !Passes(guard, s.doc) then s else Commit(s, s.clients[p].op, next)
    case Crash(p) => s.(clients := s.clients - {p})
    case Call(p, commit, report) =>
      if p !in s.clients then s else
        var (s', pc) := Advance(l, s, s.clients[p], commit, report);
        s'.(clients := s.clients[p := s.clients[p].(pc := pc)])
  }

  function Run<D(!new), Op(!new)>(l: Loop<D, Op>, s: State<D, Op>, events: seq<Event<Op>>): State<D, Op>
    decreases |events|
  {
    if events == [] then s else Step(l, Run(l, s, events[..|events| - 1]), events[|events| - 1])
  }

  /** The document obtained by applying operations one after the other. */
  function Fold<D(!new), Op(!new)>(l: Loop<D, Op>, d: D, ops: seq<Op>): D
    decreases |ops|
  {
    if ops == [] then d else l.apply(ops[|ops| - 1], Fold(l, d, ops[..|ops| - 1]))
  }

  ghost predicate Initial<D, Op>(s: State<D, Op>) {
    s.clients == map[] && s.log == [] && (s.doc.Stored? ==> s.doc.version < s.nextVersion)
  }

  /** Every write carries a precondition: the document exists, or this kind of loop never writes blindly. */
  ghost predicate Guarded<D(!new), Op(!new)>(l: Loop<D, Op>, doc: Document<D>) {
    doc.Stored? || forall op :: !l.onMissing(op).PutBlind?
  }

  // ---------------------------------------------------------------- the invariant

  ghost predicate ClientOk<D(!new), Op(!new)>(l: Loop<D, Op>, d0: D, s: State<D, Op>, c: Client<D, Op>) {
    && c.start <= |s.log|
    && match c.pc {
         case Writing(_, IfMatch(v), next) =>
           && v < s.nextVersion
           && (Passes(IfMatch(v), s.doc) ==> next == l.apply(c.op, s.doc.value) && !l.settled(c.op, s.doc.value))
         case Writing(_, IfMissing, next) => next == l.apply(c.op, l.empty)
         case Writing(_, Always, next) => false
         case Succeeded(wrote, at) =>
           && c.start <= at <= |s.log|
           && (if wrote then at < |s.log| && s.log[at] == c.op else l.settled(c.op, Fold(l, d0, s.log[..at])))
         case _ => true
       }
  }

  /** `d0` is the value the run started from. */
  ghost predicate Linear<D(!new), Op(!new)>(l: Loop<D, Op>, d0: D, s: State<D, Op>) {
    && Guarded(l, s.doc)
    && Value(l, s.doc) == Fold(l, d0, s.log)
    && (s.doc.Stored? ==> s.doc.version < s.nextVersion)
    && (forall p <- s.clients :: ClientOk(l, d0, s, s.clients[p]))
  }

  lemma FoldOneMore<D(!new), Op(!new)>(l: Loop<D, Op>, d: D, ops: seq<Op>, op: Op)
    ensures Fold(l, d, ops + [op]) == l.apply(op, Fold(l, d, ops))
  {
    assert (ops + [op])[..|ops|] == ops;
  }

  /** A committed write is the operation applied to the document as it is at that instant. */
  lemma WriteLinear<D(!new), Op(!new)>(
    l: Loop<D, Op>, d0: D, s: State<D, Op>, c: Client<D, Op>, commit: bool, report: Report)
    requires Linear(l, d0, s) && ClientOk(l, d0, s, c) && c.pc.Writing?
    ensures var (s', pc) := Advance(l, s, c, commit, report);
            && Value(l, s'.doc) == Fold(l, d0, s'.log)
            && ClientOk(l, d0, s', c.(pc := pc))
            && s.log <= s'.log
  {
    FoldOneMore(l, d0, s.log, c.op);
    hide Fold, Guarded;
  }

  lemma ReadLinear<D(!new), Op(!new)>(
    l: Loop<D, Op>, d0: D, s: State<D, Op>, c: Client<D, Op>, report: Report)
    requires Coherent(l) && Linear(l, d0, s) && ClientOk(l, d0, s, c) && c.pc.Reading?
    ensures ClientOk(l, d0, s, c.(pc := Advance(l, s, c, false, report).1))
  {
    assert s.log[..|s.log|] == s.log;
    if s.doc.Missing? {
      assert !l.onMissing(c.op).PutBlind?;
      assert match l.onMissing(c.op) case CreateNew(v) => v == l.apply(c.op, l.empty) case _ => true;
    }
    hide Fold, Coherent, Guarded;
  }

  lemma AdvanceLinear<D(!new), Op(!new)>(
    l: Loop<D, Op>, d0: D, s: State<D, Op>, c: Client<D, Op>, commit: bool, report: Report)
    requires Coherent(l) && Linear(l, d0, s) && ClientOk(l, d0, s, c)
    ensures var (s', pc) := Advance(l, s, c, commit, report);
            && Guarded(l, s'.doc) && Value(l, s'.doc) == Fold(l, d0, s'.log)
            && (s'.doc.Stored? ==> s'.doc.version < s'.nextVersion)
            && ClientOk(l, d0, s', c.(pc := pc))
            && s.log <= s'.log
  {
    match c.pc
    case Reading(_) => ReadLinear(l, d0, s, c, report);
    case Writing(_, _, _) => WriteLinear(l, d0, s, c, commit, report);
    case _ =>
  }

  lemma ClientOkStable<D(!new), Op(!new)>(
    l: Loop<D, Op>, d0: D, s: State<D, Op>, s': State<D, Op>, c: Client<D, Op>)
    requires ClientOk(l, d0, s, c) && s.log <= s'.log && s.nextVersion <= s'.nextVersion
    requires s'.doc == s.doc || (s'.doc.Stored? && s.nextVersion <= s'.doc.version)
    ensures ClientOk(l, d0, s', c)
  {
    if c.pc.Succeeded? {
      assert s'.log[..c.pc.at] == s.log[..c.pc.at];
    }
  }

  lemma ReplayLinear<D(!new), Op(!new)>(l: Loop<D, Op>, d0: D, s: State<D, Op>, p: Pid)
    requires Linear(l, d0, s)
    ensures Linear(l, d0, Step(l, s, Replayed(p))) && s.log <= Step(l, s, Replayed(p)).log
  {
    var s' := Step(l, s, Replayed(p));
    if s' != s {
      var c := s.clients[p];
      assert ClientOk(l, d0, s, c);
      FoldOneMore(l, d0, s.log, c.op);
      hide Fold;
      forall q | q in s'.clients ensures ClientOk(l, d0, s', s'.clients[q]) {
        ClientOkStable(l, d0, s, s', s.clients[q]);
      }
    }
  }

  lemma StepLinear<D(!new), Op(!new)>(l: Loop<D, Op>, d0: D, s: State<D, Op>, e: Event<Op>)
    requires Coherent(l) && Linear(l, d0, s)
    ensures Linear(l, d0, Step(l, s, e)) && s.log <= Step(l, s, e).log
  {
    if e.Replayed? {
      ReplayLinear(l, d0, s, e.pid);
      return;
    }
    var s' := Step(l, s, e);
    if e.Call? && e.pid in s.clients {
      AdvanceLinear(l, d0, s, s.clients[e.pid], e.commit, e.report);
    }
    forall p | p in s'.clients ensures ClientOk(l, d0, s', s'.clients[p]) {
      if p in s.clients && s'.clients[p] == s.clients[p] {
        ClientOkStable(l, d0, s, s', s.clients[p]);
      }
    }
  }

  lemma {:induction false} RunLinear<D(!new), Op(!new)>(l: Loop<D, Op>, s: State<D, Op>, events: seq<Event<Op>>)
    requires Coherent(l) && Initial(s) && Guarded(l, s.doc)
    ensures Linear(l, Value(l, s.doc), Run(l, s, events))
    decreases |events|
  {
    if events != [] {
      RunLinear(l, s, events[..|events| - 1]);
      StepLinear(l, Value(l, s.doc), Run(l, s, events[..|events| - 1]), events[|events| - 1]);
    }
  }

  // ---------------------------------------------------------------- main results

  /** In every run the stored document is the fold of the committed operations in commit order. */
  lemma DocumentIsFoldOfLog<D(!new), Op(!new)>(l: Loop<D, Op>, s: State<D, Op>, events: seq<Event<Op>>)
    requires Coherent(l) && Initial(s) && Guarded(l, s.doc)
    ensures Value(l, Run(l, s, events).doc) == Fold(l, Value(l, s.doc), Run(l, s, events).log)
  {
    RunLinear(l, s, events);
  }

  /** The document an operation left behind, or found already settled, at the point where it took effect. */
  function Witnessed<D(!new), Op(!new)>(l: Loop<D, Op>, d0: D, log: seq<Op>, pc: Pc<D>): D
    requires pc.Succeeded? && pc.at <= |log| && (pc.wrote ==> pc.at < |log|)
  {
    Fold(l, d0, log[..if pc.wrote then pc.at + 1 else pc.at])
  }

  /** Every client that succeeds took effect at one point between its start and its return: either its
      write is the committed operation at that point or the document was already settled there. */
  lemma SuccessHasOnePoint<D(!new), Op(!new)>(l: Loop<D, Op>, s: State<D, Op>, events: seq<Event<Op>>, p: Pid)
    requires Coherent(l) && Initial(s) && Guarded(l, s.doc)
    requires p in Run(l, s, events).clients && Run(l, s, events).clients[p].pc.Succeeded?
    ensures var now := Run(l, s, events);
            var c := now.clients[p];
            && c.start <= c.pc.at <= |now.log|
            && var before := Fold(l, Value(l, s.doc), now.log[..c.pc.at]);
            && (c.pc.wrote ==> c.pc.at < |now.log| && now.log[c.pc.at] == c.op
                               && Witnessed(l, Value(l, s.doc), now.log, c.pc) == l.apply(c.op, before))
            && (!c.pc.wrote ==> l.settled(c.op, before))
  {
    RunLinear(l, s, events);
    var now := Run(l, s, events);
    assert ClientOk(l, Value(l, s.doc), now, now.clients[p]);
    hide Run, Linear, ClientOk, Fold, Witnessed;
    OnePoint(l, Value(l, s.doc), now, now.clients[p]);
  }

  lemma OnePoint<D(!new), Op(!new)>(l: Loop<D, Op>, d0: D, s: State<D, Op>, c: Client<D, Op>)
    requires ClientOk(l, d0, s, c) && c.pc.Succeeded?
    ensures c.start <= c.pc.at <= |s.log| && (c.pc.wrote ==> c.pc.at < |s.log| && s.log[c.pc.at] == c.op)
    ensures var before := Fold(l, d0, s.log[..c.pc.at]);
            if c.pc.wrote then Witnessed(l, d0, s.log, c.pc) == l.apply(c.op, before) else l.settled(c.op, before)
  {
    if c.pc.wrote {
      assert s.log[..c.pc.at + 1] == s.log[..c.pc.at] + [c.op];
      FoldOneMore(l, d0, s.log[..c.pc.at], c.op);
    }
  }

  /** Nothing committed is ever withdrawn: logs only grow along a run. */
  lemma {:induction false} LogGrows<D(!new), Op(!new)>(l: Loop<D, Op>, s: State<D, Op>, events: seq<Event<Op>>, i: nat)
    requires Coherent(l) && Initial(s) && Guarded(l, s.doc) && i <= |events|
    ensures Run(l, s, events[..i]).log <= Run(l, s, events).log
    decreases |events|
  {
    if i == |events| {
      assert events[..i] == events;
    } else {
      var front := events[..|events| - 1];
      assert front[..i] == events[..i];
      LogGrows(l, s, front, i);
      RunLinear(l, s, front);
      StepLinear(l, Value(l, s.doc), Run(l, s, front), events[|events| - 1]);
    }
  }

  lemma {:induction false} VersionsGrow<D(!new), Op(!new)>(l: Loop<D, Op>, s: State<D, Op>, events: seq<Event<Op>>)
    requires s.doc.Stored? && s.doc.version < s.nextVersion
    ensures var t := Run(l, s, events); t.doc.Stored? && s.doc.version <= t.doc.version < t.nextVersion
    decreases |events|
  {
    if events != [] { VersionsGrow(l, s, events[..|events| - 1]); }
  }

  /** A conditional write takes effect at most once, however often it is sent: once it or any other has
      been committed, its precondition fails for good. */
  lemma ConditionalWriteCommitsOnce<D(!new), Op(!new)>(
    l: Loop<D, Op>, s: State<D, Op>, e: Event<Op>, events: seq<Event<Op>>, p: Pid)
    requires Prepared(l, s) && p in s.clients && s.clients[p].pc.Writing? && s.clients[p].pc.guard.IfMatch?
    requires Step(l, s, e).log != s.log
    ensures !Passes(s.clients[p].pc.guard, Run(l, Step(l, s, e), events).doc)
  {
    assert WriterOk(l, s, s.clients[p]);
    VersionsGrow(l, Step(l, s, e), events);
    hide Run;
  }

  // ---------------------------------------------------------------- running out of attempts

  /** A conflict is reported only when the precondition fails at that instant, perhaps because an earlier
      sending of the same write took effect. */
  predicate Truthful<D, Op>(s: State<D, Op>, e: Event<Op>) {
    e.Call? && e.report.Conflict? && e.pid in s.clients && s.clients[e.pid].pc.Writing? ==>
      !Passes(s.clients[e.pid].pc.guard, s.doc)
  }

  ghost predicate AlwaysTruthful<D(!new), Op(!new)>(l: Loop<D, Op>, s: State<D, Op>, events: seq<Event<Op>>)
    decreases |events|
  {
    events != [] ==>
      var front := events[..|events| - 1];
      Truthful(Run(l, s, front), events[|events| - 1]) && AlwaysTruthful(l, s, front)
  }

  /** Every attempt used up has cost a commit; the current one has if the document is no longer as it was read. */
  ghost predicate Charged<D, Op>(s: State<D, Op>, c: Client<D, Op>) {
    match c.pc
    case Reading(n) => c.start + n <= |s.log|
    case Writing(n, guard, _) => c.start + n <= |s.log| && (c.start + n == |s.log| ==> Passes(guard, s.doc))
    case _ => true
  }

  ghost predicate AllCharged<D, Op>(s: State<D, Op>) {
    forall p <- s.clients :: Charged(s, s.clients[p])
  }

  lemma StepCharged<D(!new), Op(!new)>(l: Loop<D, Op>, s: State<D, Op>, e: Event<Op>)
    requires AllCharged(s) && Truthful(s, e)
    ensures AllCharged(Step(l, s, e))
  {
    var s' := Step(l, s, e);
    forall p | p in s'.clients ensures Charged(s', s'.clients[p]) {
      if p in s.clients { assert Charged(s, s.clients[p]); }
    }
  }

  lemma {:induction false} RunCharged<D(!new), Op(!new)>(l: Loop<D, Op>, s: State<D, Op>, events: seq<Event<Op>>)
    requires Initial(s) && AlwaysTruthful(l, s, events)
    ensures AllCharged(Run(l, s, events))
    decreases |events|
  {
    if events != [] {
      RunCharged(l, s, events[..|events| - 1]);
      StepCharged(l, Run(l, s, events[..|events| - 1]), events[|events| - 1]);
    }
  }

  /** The event is the conflict with which a client's last attempt ends. */
  predicate Exhausts<D(!new), Op(!new)>(l: Loop<D, Op>, s: State<D, Op>, e: Event<Op>) {
    && e.Call? && e.report.Conflict? && e.pid in s.clients
    && s.clients[e.pid].pc.Writing? && s.clients[e.pid].pc.attempt + 1 >= l.attempts
  }

  /** In every run, a loop that gives up because its attempts are used up has had at least that many commits
      between its start and its end, its own replayed ones included. */
  lemma GivingUpTakesCommits<D(!new), Op(!new)>(l: Loop<D, Op>, s: State<D, Op>, events: seq<Event<Op>>, e: Event<Op>)
    requires Initial(s) && AlwaysTruthful(l, s, events) && Truthful(Run(l, s, events), e)
    requires Exhausts(l, Run(l, s, events), e)
    ensures var before, after := Run(l, s, events), Step(l, Run(l, s, events), e);
            after.clients[e.pid].pc.Failed? && |after.log| >= before.clients[e.pid].start + l.attempts
  {
    RunCharged(l, s, events);
    var now := Run(l, s, events);
    assert Charged(now, now.clients[e.pid]);
    hide Run;
  }

  // ---------------------------------------------------------------- without the guard

  /** What a client is about to write, whether or not the document was there when it read it. */
  ghost predicate WriterOk<D(!new), Op(!new)>(l: Loop<D, Op>, s: State<D, Op>, c: Client<D, Op>) {
    match c.pc
    case Writing(_, IfMatch(v), next) =>
      v < s.nextVersion && (Passes(IfMatch(v), s.doc) ==> next == l.apply(c.op, s.doc.value))
    case Writing(_, _, next) => next == l.apply(c.op, l.empty)
    case _ => true
  }

  ghost predicate Prepared<D(!new), Op(!new)>(l: Loop<D, Op>, s: State<D, Op>) {
    (s.doc.Stored? ==> s.doc.version < s.nextVersion) && forall p <- s.clients :: WriterOk(l, s, s.clients[p])
  }

  lemma StepPrepared<D(!new), Op(!new)>(l: Loop<D, Op>, s: State<D, Op>, e: Event<Op>)
    requires Coherent(l) && Prepared(l, s)
    ensures Prepared(l, Step(l, s, e))
  {
    var s' := Step(l, s, e);
    forall p | p in s'.clients ensures WriterOk(l, s', s'.clients[p]) {
      if p in s.clients {
        assert WriterOk(l, s, s.clients[p]);
        var op := s.clients[p].op;
        assert match l.onMissing(op)
               case CreateNew(v) => v == l.apply(op, l.empty)
               case PutBlind(v) => v == l.apply(op, l.empty)
               case _ => true;
      }
      hide Coherent;
    }
  }

  lemma {:induction false} RunPrepared<D(!new), Op(!new)>(l: Loop<D, Op>, s: State<D, Op>, events: seq<Event<Op>>)
    requires Coherent(l) && Initial(s)
    ensures Prepared(l, Run(l, s, events))
    decreases |events|
  {
    if events != [] {
      RunPrepared(l, s, events[..|events| - 1]);
      StepPrepared(l, Run(l, s, events[..|events| - 1]), events[|events| - 1]);
    }
  }

  /** The event writes without a precondition. */
  predicate Blind<D, Op>(s: State<D, Op>, e: Event<Op>) {
    && ((e.Call? && e.commit) || e.Replayed?) && e.pid in s.clients
    && s.clients[e.pid].pc.Writing? && s.clients[e.pid].pc.guard.Always?
  }

  /** It overwrites nothing that would have made a difference. */
  ghost predicate Harmless<D(!new), Op(!new)>(l: Loop<D, Op>, s: State<D, Op>, e: Event<Op>) {
    Blind(s, e) ==> var op := s.clients[e.pid].op; l.apply(op, Value(l, s.doc)) == l.apply(op, l.empty)
  }

  ghost predicate Folded<D(!new), Op(!new)>(l: Loop<D, Op>, d0: D, s: State<D, Op>) {
    Value(l, s.doc) == Fold(l, d0, s.log)
  }

  lemma StepFoldedIff<D(!new), Op(!new)>(l: Loop<D, Op>, d0: D, s: State<D, Op>, e: Event<Op>)
    requires Prepared(l, s) && Folded(l, d0, s)
    ensures Folded(l, d0, Step(l, s, e)) <==> Harmless(l, s, e)
  {
    if (e.Call? || e.Replayed?) && e.pid in s.clients {
      assert WriterOk(l, s, s.clients[e.pid]);
      FoldOneMore(l, d0, s.log, s.clients[e.pid].op);
    }
    hide Fold, Prepared;
  }

  /** Every document on the way is the fold of the operations committed so far. */
  ghost predicate AlwaysFolded<D(!new), Op(!new)>(l: Loop<D, Op>, s: State<D, Op>, events: seq<Event<Op>>)
    decreases |events|
  {
    && Folded(l, Value(l, s.doc), Run(l, s, events))
    && (events != [] ==> AlwaysFolded(l, s, events[..|events| - 1]))
  }

  ghost predicate AlwaysHarmless<D(!new), Op(!new)>(l: Loop<D, Op>, s: State<D, Op>, events: seq<Event<Op>>)
    decreases |events|
  {
    events != [] ==>
      var front := events[..|events| - 1];
      Harmless(l, Run(l, s, front), events[|events| - 1]) && AlwaysHarmless(l, s, front)
  }

  /** In any run, whether or not the document existed, every document on the way is the fold of what was
      committed if and only if no write without a precondition overwrites anything that would have made
      a difference to it. */
  lemma {:induction false} RunIsFoldIff<D(!new), Op(!new)>(l: Loop<D, Op>, s: State<D, Op>, events: seq<Event<Op>>)
    requires Coherent(l) && Initial(s)
    ensures AlwaysFolded(l, s, events) <==> AlwaysHarmless(l, s, events)
    decreases |events|
  {
    if events != [] {
      var front, last := events[..|events| - 1], events[|events| - 1];
      var before := Run(l, s, front);
      RunIsFoldIff(l, s, front);
      RunPrepared(l, s, front);
      assert AlwaysFolded(l, s, front) ==> Folded(l, Value(l, s.doc), before);
      if Folded(l, Value(l, s.doc), before) { StepFoldedIff(l, Value(l, s.doc), before, last); }
      hide Folded, Harmless, Prepared;
    }
  }

  // ---------------------------------------------------------------- one loop and its rivals

  /** A loop that nobody disturbs is done after two calls: where there is something to write, the document is
      then what the operation makes of the one that was stored. */
  lemma LeftAloneWrites<D(!new), Op(!new)>(l: Loop<D, Op>, s: State<D, Op>, p: Pid, n: nat)
    requires p in s.clients && s.clients[p].pc == Reading(n) && s.doc.Stored?
    requires !l.settled(s.clients[p].op, s.doc.value)
    ensures var op := s.clients[p].op;
            Step(l, Step(l, s, Call(p, true, Ok)), Call(p, true, Ok))
            == State(Stored(l.apply(op, s.doc.value), s.nextVersion), s.nextVersion + 1,
                     s.clients[p := s.clients[p].(pc := Succeeded(true, |s.log|))], s.log + [op])
  {
    var c := s.clients[p];
    var w := c.(pc := Writing(n, IfMatch(s.doc.version), l.apply(c.op, s.doc.value)));
    assert Step(l, s, Call(p, true, Ok)) == s.(clients := s.clients[p := w]);
    assert s.clients[p := w][p := w.(pc := Succeeded(true, |s.log|))]
        == s.clients[p := c.(pc := Succeeded(true, |s.log|))];
  }

  /** Otherwise one read ends it and nothing is written, but for a document that is missing and is to be made:
      then it is made, whichever precondition the write has. */
  lemma LeftAloneReads<D(!new), Op(!new)>(l: Loop<D, Op>, s: State<D, Op>, p: Pid, n: nat)
    requires p in s.clients && s.clients[p].pc == Reading(n)
    requires s.doc.Stored? ==> l.settled(s.clients[p].op, s.doc.value)
    ensures var c, once := s.clients[p], Step(l, s, Call(p, true, Ok));
            && (s.doc.Stored? ==> once == s.(clients := s.clients[p := c.(pc := Succeeded(false, |s.log|))]))
            && (s.doc.Missing? && l.onMissing(c.op).GiveUp? ==> once == s.(clients := s.clients[p := c.(pc := Failed)]))
            && (s.doc.Missing? && l.onMissing(c.op).NothingToDo? ==>
                  once == s.(clients := s.clients[p := c.(pc := NoDocument)]))
            && (s.doc.Missing? && (l.onMissing(c.op).CreateNew? || l.onMissing(c.op).PutBlind?) ==>
                  Step(l, once, Call(p, true, Ok))
                  == State(Stored(l.onMissing(c.op).value, s.nextVersion), s.nextVersion + 1,
                           s.clients[p := c.(pc := Succeeded(true, |s.log|))], s.log + [c.op]))
  {
    var c, m := s.clients[p], l.onMissing(s.clients[p].op);
    if s.doc.Missing? && (m.CreateNew? || m.PutBlind?) {
      var w := c.(pc := Writing(n, if m.CreateNew? then IfMissing else Always, m.value));
      assert Step(l, s, Call(p, true, Ok)) == s.(clients := s.clients[p := w]);
      assert s.clients[p := w][p := w.(pc := Succeeded(true, |s.log|))]
          == s.clients[p := c.(pc := Succeeded(true, |s.log|))];
    }
  }

  /** A write whose document has changed since the read has no effect. Told so, the loop reads again, with what
      is stored now, until its attempts are used up; after a fault it gives up. */
  lemma RivalCostsAnAttempt<D(!new), Op(!new)>(l: Loop<D, Op>, s: State<D, Op>, p: Pid, n: nat, seen: nat, next: D,
      commit: bool)
    requires p in s.clients && s.clients[p].pc == Writing(n, IfMatch(seen), next)
    requires s.doc.Stored? ==> s.doc.version != seen
    ensures Step(l, s, Call(p, commit, Conflict))
            == s.(clients := s.clients[p := s.clients[p].(pc := if n + 1 < l.attempts then Reading(n + 1) else Failed)])
    ensures Step(l, s, Call(p, commit, Fault)) == s.(clients := s.clients[p := s.clients[p].(pc := Failed)])
    ensures Step(l, s, Replayed(p)) == s
  {
  }
}
