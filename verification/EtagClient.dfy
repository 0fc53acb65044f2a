/** One caller of a read-modify-write loop, as it runs.

    The class is the document as this caller sees it: before each of its calls any other callers may
    make any number of theirs. Every method is a step of the state machine, so a loop written with
    them is an execution of it, and what is proved of all runs holds of the loop. */
module EtagClient {
  import opened EtagLoop

  /** How often the client library repeats a request. */
  const MAX_REPLAYS := 5

  predicate NotBy<Op>(me: Pid, events: seq<Event<Op>>) {
    forall i | 0 <= i < |events| :: events[i].pid != me
  }

  lemma {:induction false} RunAppend<D(!new), Op(!new)>(l: Loop<D, Op>, s: State<D, Op>, a: seq<Event<Op>>,
      b: seq<Event<Op>>)
    ensures Run(l, s, a + b) == Run(l, Run(l, s, a), b)
    decreases |b|
  {
    if b == [] {
      assert a + b == a;
    } else {
      assert (a + b)[..|a + b| - 1] == a + b[..|b| - 1];
      RunAppend(l, s, a, b[..|b| - 1]);
    }
  }

  lemma {:induction false} OthersLeaveMe<D(!new), Op(!new)>(l: Loop<D, Op>, s: State<D, Op>, me: Pid,
      events: seq<Event<Op>>)
    requires NotBy(me, events) && me in s.clients
    ensures me in Run(l, s, events).clients && Run(l, s, events).clients[me] == s.clients[me]
    ensures |s.log| <= |Run(l, s, events).log|
    decreases |events|
  {
    if events != [] { OthersLeaveMe(l, s, me, events[..|events| - 1]); }
  }

  class Core<D(!new, ==), Op(!new, ==)> {
    const l: Loop<D, Op>
    var state: State<D, Op>
    ghost const first: State<D, Op>
    ghost var trace: seq<Event<Op>>

    ghost predicate Valid()
      reads this
    {
      Initial(first) && state == Run(l, first, trace)
    }

    /** `me` is at `pc` of a call for `op`. */
    predicate At(me: Pid, op: Op, pc: Pc<D>)
      reads this
    {
      me in state.clients && state.clients[me].op == op && state.clients[me].pc == pc
    }

    constructor (l: Loop<D, Op>, doc: Document<D>)
      ensures Valid() && trace == [] && state.doc == doc && this.l == l
    {
      var s := State(doc, if doc.Stored? then doc.version + 1 else 0, map[], []);
      this.l, state, first, trace := l, s, s, [];
    }

    method Start(me: Pid, op: Op)
      requires Valid() && me !in state.clients
      modifies this
      ensures Valid() && trace == old(trace) + [Event.Start(me, op)] && At(me, op, Reading(0))
    {
      RunAppend(l, first, trace, [Event.Start(me, op)]);
      state := Step(l, state, Event.Start(me, op));
      trace := trace + [Event.Start(me, op)];
    }

    method OthersRun(me: Pid)
      requires Valid() && me in state.clients
      modifies this
      ensures Valid() && old(trace) <= trace
      ensures me in state.clients && state.clients[me] == old(state.clients[me])
    {
      ghost var none: seq<Event<Op>> := [];
      assert NotBy(me, none);
      var es: seq<Event<Op>> :| NotBy(me, es);
      RunAppend(l, first, trace, es);
      OthersLeaveMe(l, state, me, es);
      state := Run(l, state, es);
      trace := trace + es;
    }

    /** One call by `me`, with whatever outcome. */
    method Do(me: Pid, commit: bool, report: Report)
      requires Valid() && me in state.clients
      modifies this
      ensures Valid() && trace == old(trace) + [Call(me, commit, report)]
      ensures state == Step(l, old(state), Call(me, commit, report))
    {
      RunAppend(l, first, trace, [Call(me, commit, report)]);
      state := Step(l, state, Call(me, commit, report));
      trace := trace + [Call(me, commit, report)];
    }

    /** The client library sends the write of `me` several times, each time without learning what became of it. */
    method Repeat(me: Pid)
      requires Valid() && me in state.clients && state.clients[me].pc.Writing?
      modifies this
      ensures Valid() && old(trace) <= trace
      ensures me in state.clients && state.clients[me] == old(state.clients[me])
    {
      var replays: nat :| replays <= MAX_REPLAYS;
      for i := 0 to replays
        invariant Valid() && old(trace) <= trace
        invariant me in state.clients && state.clients[me] == old(state.clients[me])
      {
        OthersRun(me);
        RunAppend(l, first, trace, [Replayed(me)]);
        state := Step(l, state, Replayed(me));
        trace := trace + [Replayed(me)];
      }
    }

    /** A GET by `me`. */
    method Get(me: Pid) returns (fault: bool, current: Document<D>)
      requires Valid() && me in state.clients && state.clients[me].pc.Reading?
      modifies this
      ensures Valid() && old(trace) <= trace && me in state.clients
      ensures state.doc == current
      ensures var c := old(state.clients[me]);
              At(me, c.op, if fault then Failed else AfterRead(l, c.op, c.pc.attempt, current, |state.log|))
    {
      OthersRun(me);
      current := state.doc;
      fault := *;
      Do(me, false, if fault then Fault else Ok);
    }

    /** A POST or a PUT of `next` by `me`, with all its repetitions; `Conflict` stands for every answer that
        makes the loop go round again. */
    method Send(me: Pid, next: D) returns (report: Report)
      requires Valid() && me in state.clients && state.clients[me].pc.Writing? && state.clients[me].pc.next == next
      modifies this
      ensures Valid() && old(trace) <= trace && me in state.clients && state.clients[me].op == old(state.clients[me].op)
      ensures var c := old(state.clients[me]);
              var pc := state.clients[me].pc;
              && (report.Ok? ==> pc.Succeeded? && pc.wrote && state.doc.Stored? && state.doc.value == next)
              && (report.Conflict? ==>
                  pc == if c.pc.attempt + 1 < l.attempts then Reading(c.pc.attempt + 1) else Failed)
              && (report.Fault? ==> pc == Failed)
    {
      Repeat(me);
      OthersRun(me);
      var commit: bool := *;
      report := *;
      if report.Ok? && !(commit && Passes(state.clients[me].pc.guard, state.doc)) {
        report := Fault;
      }
      Do(me, commit, report);
    }

    /** `me` has finished a call for `op`: `ok` says whether it took effect or had nothing to do. */
    predicate Finished(me: Pid, op: Op, ok: bool)
      reads this
    {
      && me in state.clients && state.clients[me].op == op
      && var pc := state.clients[me].pc;
         if ok then pc.Succeeded? || pc.NoDocument? else pc.Failed?
    }
  }
}
