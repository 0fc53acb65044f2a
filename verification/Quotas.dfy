/** Directory quotas: created or grown, never shrunk. */
module Quotas {
  import opened EtagClient
  import opened EtagLoop
  import opened Wrappers

  const QUOTA_ATTEMPTS := 4

  function AtLeast(limit: nat, current: nat): nat {
    if current >= limit then current else limit
  }

  /** The document is the limit, the operation the limit asked for. */
  function QuotaLoop(): Loop<nat, nat> {
    Loop(AtLeast, (limit: nat, current: nat) => current >= limit, (limit: nat) => CreateNew(limit), 0, QUOTA_ATTEMPTS)
  }

  // ---------------------------------------------------------------- every run

  lemma {:induction false} FoldGrows(d: nat, log: seq<nat>, i: nat)
    requires i <= |log|
    ensures Fold(QuotaLoop(), d, log[..i]) <= Fold(QuotaLoop(), d, log)
    decreases |log|
  {
    if i == |log| {
      assert log[..i] == log;
    } else {
      assert log[..|log| - 1][..i] == log[..i];
      FoldGrows(d, log[..|log| - 1], i);
    }
  }

  /** A directory's quota never shrinks along any run, with lost responses and replays anywhere. */
  lemma QuotaNeverShrinks(s: State<nat, nat>, events: seq<Event<nat>>, i: nat)
    requires Initial(s) && i <= |events|
    ensures Value(QuotaLoop(), Run(QuotaLoop(), s, events[..i]).doc)
            <= Value(QuotaLoop(), Run(QuotaLoop(), s, events).doc)
  {
    var before, after := Run(QuotaLoop(), s, events[..i]), Run(QuotaLoop(), s, events);
    LogGrows(QuotaLoop(), s, events, i);
    DocumentIsFoldOfLog(QuotaLoop(), s, events[..i]);
    DocumentIsFoldOfLog(QuotaLoop(), s, events);
    assert after.log[..|before.log|] == before.log;
    FoldGrows(Value(QuotaLoop(), s.doc), after.log, |before.log|);
  }

  /** The limit a successful call returns: its own when it wrote, else the one it read. */
  function Returned(s: State<nat, nat>, now: State<nat, nat>, c: Client<nat, nat>): nat
    requires c.pc.Succeeded? && c.pc.at <= |now.log| && (c.pc.wrote ==> c.pc.at < |now.log|)
  {
    Witnessed(QuotaLoop(), Value(QuotaLoop(), s.doc), now.log, c.pc)
  }

  /** What a successful call returned is at least what it asked for and at most Core's limit from then on. */
  lemma SuccessIsBounded(s: State<nat, nat>, events: seq<Event<nat>>, p: Pid)
    requires Initial(s)
    requires p in Run(QuotaLoop(), s, events).clients && Run(QuotaLoop(), s, events).clients[p].pc.Succeeded?
    ensures var now := Run(QuotaLoop(), s, events);
            var c := now.clients[p];
            && c.pc.at <= |now.log| && (c.pc.wrote ==> c.pc.at < |now.log|)
            && c.op <= Returned(s, now, c) <= Value(QuotaLoop(), now.doc)
  {
    SuccessHasOnePoint(QuotaLoop(), s, events, p);
    DocumentIsFoldOfLog(QuotaLoop(), s, events);
    var now := Run(QuotaLoop(), s, events);
    var pc := now.clients[p].pc;
    FoldGrows(Value(QuotaLoop(), s.doc), now.log, if pc.wrote then pc.at + 1 else pc.at);
  }

  // ---------------------------------------------------------------- the loop itself

  /** The read-modify-write loop, run by `me` against a Core that others keep changing. Whatever they do,
      the execution is a run of the state machine, so what was proved of all runs holds of it. */
  method EnsureQuotaAtLeast(core: Core<nat, nat>, me: Pid, limit: nat) returns (ok: bool, value: nat)
    requires core.Valid() && core.l == QuotaLoop() && me !in core.state.clients
    modifies core
    ensures core.Valid() && old(core.trace) <= core.trace && core.Finished(me, limit, ok)
    ensures ok ==> limit <= value == Value(QuotaLoop(), core.state.doc)
  {
    core.Start(me, limit);
    var attempt := 0;
    while attempt < QUOTA_ATTEMPTS
      invariant 0 <= attempt <= QUOTA_ATTEMPTS
      invariant core.Valid() && old(core.trace) <= core.trace
      invariant core.At(me, limit, if attempt < QUOTA_ATTEMPTS then Reading(attempt) else Failed)
    {
      var fault, current := core.Get(me);
      if fault {
        return false, 0;
      }
      if current.Stored? && current.value >= limit {
        return true, current.value;
      }
      var report := core.Send(me, limit);
      if report.Ok? {
        return true, limit;
      }
      if report.Fault? {
        return false, 0;
      }
      attempt := attempt + 1;
    }
    return false, 0;
  }

  /** In every run a call gives up for conflicts only after four changes of the quota were committed. */
  lemma GivingUpTakesFourCommits(s: State<nat, nat>, events: seq<Event<nat>>, e: Event<nat>)
    requires Initial(s) && AlwaysTruthful(QuotaLoop(), s, events) && Truthful(Run(QuotaLoop(), s, events), e)
    requires Exhausts(QuotaLoop(), Run(QuotaLoop(), s, events), e)
    ensures |Step(QuotaLoop(), Run(QuotaLoop(), s, events), e).log| >= Run(QuotaLoop(), s, events).clients[e.pid].start
            + 4
  {
    GivingUpTakesCommits(QuotaLoop(), s, events, e);
    hide Run;
  }

  // ---------------------------------------------------------------- capacity of a volume

  datatype Capacity = Success(value: nat) | Failure(error: Error)
  datatype Error = Negative | RequiredExceedsLimit | TooLarge | AboveLimit

  /** A CSI capacity range; a limit of 0 means none. */
  datatype Range = Range(required: int, limit: int)

  const DEFAULT_BYTES := 0x4000_0000
  const MAX_INT64 := 0x7fff_ffff_ffff_ffff

  function RequestedCapacity(r: Option<Range>): (c: Capacity)
    ensures c.Success? && r.Some? && r.value.required > 0 ==> c.value == r.value.required
    ensures c.Success? && r.Some? && r.value.limit > 0 ==> c.value <= r.value.limit
    ensures r.None? ==> c == Success(1024 * 1024 * 1024)
    ensures r.Some? && (r.value.required < 0 || r.value.limit < 0) ==> c == Failure(Negative)
    ensures r.Some? && 0 < r.value.limit < r.value.required ==> c == Failure(RequiredExceedsLimit)
    ensures c.Failure? && r.Some? && r.value.required >= 0 && r.value.limit >= 0
            && !(0 < r.value.limit < r.value.required) ==>
              c == Failure(TooLarge) && r.value.required == 9223372036854775807
    ensures r.Some? && r.value.required == 0 && r.value.limit == 0 ==> c == Success(1024 * 1024 * 1024)
    ensures r.Some? && r.value.required == 0 && 0 < r.value.limit <= 1024 * 1024 * 1024 ==> c == Success(r.value.limit)
    ensures r.Some? && r.value.required == 0 && r.value.limit >= 1024 * 1024 * 1024 ==> c == Success(1024 * 1024 * 1024)
    ensures r.Some? && r.value.required > 0 && r.value.limit >= 0 ==>
              (c.Success? <==> (r.value.limit == 0 || r.value.required <= r.value.limit)
                               && r.value.required != 9223372036854775807)
  {
    match r
    case None => Success(DEFAULT_BYTES)
    case Some(Range(required, limit)) =>
      if required < 0 || limit < 0 then Failure(Negative)
      else
        var wanted := if required != 0 then required
                      else if 0 < limit < DEFAULT_BYTES then limit else DEFAULT_BYTES;
        if limit > 0 && wanted > limit then Failure(RequiredExceedsLimit)
        else if wanted == MAX_INT64 then Failure(TooLarge)
        else Success(wanted)
  }

  /** The capacity Create or Expand reports once the quota loop has returned `ensured`, or without a quota. */
  function Reported(r: Option<Range>, ensured: Option<nat>): Capacity {
    if ensured.None? then RequestedCapacity(r)
    else if r.Some? && 0 < r.value.limit < ensured.value then Failure(AboveLimit)
    else Success(ensured.value)
  }

  /** In every run, a capacity reported for a volume with a quota is within the request and backed by
      Core's quota from then on; one reported without a quota is exactly the one requested. */
  lemma ReportedCapacityIsHonest(s: State<nat, nat>, events: seq<Event<nat>>, p: Pid, r: Option<Range>)
    requires Initial(s)
    requires p in Run(QuotaLoop(), s, events).clients && Run(QuotaLoop(), s, events).clients[p].pc.Succeeded?
    requires RequestedCapacity(r) == Success(Run(QuotaLoop(), s, events).clients[p].op)
    ensures var now := Run(QuotaLoop(), s, events);
            var c := now.clients[p];
            && c.pc.at <= |now.log| && (c.pc.wrote ==> c.pc.at < |now.log|)
            && var reported := Reported(r, Some(Returned(s, now, c)));
            reported.Success? ==>
              && RequestedCapacity(r).value <= reported.value <= Value(QuotaLoop(), now.doc)
              && (r.Some? && r.value.limit > 0 ==> reported.value <= r.value.limit)
    ensures Reported(r, None) == RequestedCapacity(r)
  {
    SuccessIsBounded(s, events, p);
  }

  /** The capacity part of CreateVolume, which comes after the claim. Without a quota nothing is sent and
      nothing but the request backs the answer. */
  method CreateCapacity(core: Core<nat, nat>, me: Pid, quotaEnabled: bool, r: Option<Range>) returns (c: Option<nat>)
    requires core.Valid() && core.l == QuotaLoop() && me !in core.state.clients
    modifies core
    ensures core.Valid() && old(core.trace) <= core.trace
    ensures c.Some? ==> RequestedCapacity(r).Success? && RequestedCapacity(r).value <= c.value
    ensures c.Some? && r.Some? ==> r.value.required <= c.value && (r.value.limit > 0 ==> c.value <= r.value.limit)
    ensures c.None? && quotaEnabled && RequestedCapacity(r).Success? ==>
              || (me in core.state.clients && core.state.clients[me].pc.Failed?)
              || (r.Some? && 0 < r.value.limit < Value(QuotaLoop(), core.state.doc))
    ensures c.Some? && quotaEnabled ==> c.value == Value(QuotaLoop(), core.state.doc)
    ensures !quotaEnabled ==> core.trace == old(core.trace)
                              && c == (if RequestedCapacity(r).Success? then Some(RequestedCapacity(r).value) else None)
    ensures RequestedCapacity(r).Failure? ==> c.None? && core.trace == old(core.trace)
  {
    var wanted := RequestedCapacity(r);
    if wanted.Failure? { return None; }
    if !quotaEnabled { return Some(wanted.value); }
    var ok, ensured := EnsureQuotaAtLeast(core, me, wanted.value);
    if !ok { return None; }
    var reported := Reported(r, Some(ensured));
    return if reported.Success? then Some(reported.value) else None;
  }

  /** ControllerExpandVolume refuses a volume without a quota. */
  method ExpandCapacity(core: Core<nat, nat>, me: Pid, quotaEnabled: bool, r: Option<Range>) returns (c: Option<nat>)
    requires core.Valid() && core.l == QuotaLoop() && me !in core.state.clients
    modifies core
    ensures core.Valid() && old(core.trace) <= core.trace
    ensures c.Some? ==>
              && quotaEnabled && r.Some? && RequestedCapacity(r).Success? && RequestedCapacity(r).value <= c.value
              && (r.value.limit > 0 ==> c.value <= r.value.limit) && c.value == Value(QuotaLoop(), core.state.doc)
    ensures !quotaEnabled || r.None? || RequestedCapacity(r).Failure? ==> core.trace == old(core.trace)
  {
    if r.None? || !quotaEnabled || RequestedCapacity(r).Failure? { return None; }
    c := CreateCapacity(core, me, true, r);
  }
}
