/** The HTTP client's retry loop.

    What one call puts on the wire is a transcript of sends to a server whose document has a version
    that every write, of this caller or any other, makes a new one. `Admissible` says which
    transcripts the loop produces; what the driver relies on is proved of every admissible transcript. */
module RetryLoop {
  import opened Wrappers

  datatype Method = Get | Head | Options | Put | Patch | Post | Delete

  datatype Reply = Transport | Status(code: int)

  /** One request on the wire: the reply, whether the server took it into effect, and which version of
      the document it met there. */
  datatype Send = Send(reply: Reply, committed: bool, met: nat)

  /** The version in the If-Match header, if the request carries one. */
  type IfMatch = Option<nat>

  /** Errors of the context, the login and the decoder end a call early. */
  datatype Error = Cancelled | LoginFailed | BadBody | TransportError | ApiError(code: int)
  datatype Result = Success | Failure(error: Error)

  const MAX_RETRIES := 5

  predicate ReplaySafe(m: Method) {
    m.Get? || m.Head? || m.Options? || m.Put? || m.Patch?
  }

  predicate Unauthorized(r: Reply) {
    r == Status(401)
  }

  predicate Transient(r: Reply) {
    r.Transport? || r.code == 429 || r.code >= 500
  }

  /** What a server can do with one request: a rejected one has no effect, a successful one has. It
      compares If-Match with the version that is there when the request arrives. */
  predicate Honest(s: Send, ifMatch: IfMatch) {
    && (s.reply.Status? ==> (s.reply.code < 400 ==> s.committed) && (400 <= s.reply.code < 500 ==> !s.committed))
    && (ifMatch.Some? && ifMatch.value != s.met ==> !s.committed)
    && (s.reply == Status(412) ==> ifMatch.Some? && ifMatch.value != s.met)
  }

  /** `b` arrives after `a`: versions only grow, and a write that took effect has made a new one. */
  predicate Later(a: Send, b: Send) {
    if a.committed then a.met < b.met else a.met <= b.met
  }

  // ---------------------------------------------------------------- which sends are repeated

  /** One of the replies was a 401. */
  predicate Challenged(sent: seq<Send>) {
    exists i | 0 <= i < |sent| :: Unauthorized(sent[i].reply)
  }

  /** The reply to send `i` makes the loop send again: a first 401 that a new login can answer, or a
      transient failure of a method that may be replayed. */
  predicate Repeated(m: Method, password: bool, sent: seq<Send>, i: nat)
    requires i < |sent|
  {
    || (Unauthorized(sent[i].reply) && password && !Challenged(sent[..i]))
    || (ReplaySafe(m) && Transient(sent[i].reply))
  }

  ghost predicate Admissible(m: Method, password: bool, ifMatch: IfMatch, sent: seq<Send>) {
    && |sent| <= MAX_RETRIES + 1
    && (forall i: nat | i < |sent| :: Honest(sent[i], ifMatch))
    && (forall i: nat, j: nat | i < j < |sent| :: Later(sent[i], sent[j]))
    && (forall i: nat | i < |sent| - 1 :: Repeated(m, password, sent, i))
  }

  /** What the reply itself says. */
  function Told(r: Reply): Result {
    match r
    case Transport => Failure(TransportError)
    case Status(code) => if code >= 400 then Failure(ApiError(code)) else Success
  }

  // ---------------------------------------------------------------- the loop

  class Wire {
    var sent: seq<Send>
    /** The version of the document at the server. */
    var version: nat
    /** The context is never done, logins succeed and bodies decode. */
    const steady: bool

    constructor (steady: bool)
      ensures sent == [] && this.steady == steady
    {
      this.sent, this.version, this.steady := [], *, steady;
    }

    ghost predicate Valid()
      reads this
    {
      forall i: nat | i < |sent| :: Later(sent[i], Send(Transport, false, version))
    }

    /** Others may write before the request arrives. */
    method Do(ifMatch: IfMatch) returns (reply: Reply)
      requires Valid()
      modifies this
      ensures Valid()
      ensures |sent| == |old(sent)| + 1 && sent[..|old(sent)|] == old(sent)
      ensures sent[|old(sent)|].reply == reply && Honest(sent[|old(sent)|], ifMatch)
      ensures forall i: nat | i < |old(sent)| :: Later(sent[i], sent[|old(sent)|])
    {
      var others: nat, committed: bool := *, *;
      version := version + others;
      var fails := ifMatch.Some? && ifMatch.value != version;
      reply := *;
      if reply.Status? && reply.code < 500 {
        if fails && reply.code < 400 {
          reply := Status(412);
        } else if !fails && reply.code == 412 {
          reply := Status(400);
        }
        committed := reply.code < 400;
      }
      committed := committed && !fails;
      sent := sent + [Send(reply, committed, version)];
      if committed { version := version + 1; }
    }
  }

  /** Every call leaves an admissible transcript and returns what the last reply says, which is one that is
      not repeated or that of the last retry, unless the context, a login or the decoder ended it. */
  method SendAndRetry(wire: Wire, m: Method, password: bool, ifMatch: IfMatch) returns (r: Result)
    requires wire.sent == []
    modifies wire
    ensures Admissible(m, password, ifMatch, wire.sent)
    ensures r.Success? ==> wire.sent != [] && Told(wire.sent[|wire.sent| - 1].reply) == Success
    ensures r.Success? || r.error.TransportError? || r.error.ApiError? ==>
              && wire.sent != [] && r == Told(wire.sent[|wire.sent| - 1].reply)
              && (|wire.sent| == MAX_RETRIES + 1 || !Repeated(m, password, wire.sent, |wire.sent| - 1))
    ensures wire.steady ==> r.Success? || r.error.TransportError? || r.error.ApiError?
    ensures r == Failure(BadBody) ==> wire.sent != [] && Told(wire.sent[|wire.sent| - 1].reply) == Success
  {
    var lastErr := Failure(Cancelled);
    var relogged := false;
    var retryable := ReplaySafe(m);
    var attempt := 0;
    assert Admissible(m, password, ifMatch, wire.sent);
    hide Admissible, Honest, Later, Challenged;
    while attempt <= MAX_RETRIES
      invariant 0 <= attempt <= MAX_RETRIES + 1 && |wire.sent| == attempt
      invariant wire.Valid() && Admissible(m, password, ifMatch, wire.sent)
      invariant attempt > 0 ==>
                Repeated(m, password, wire.sent, attempt - 1) && lastErr == Told(wire.sent[attempt - 1].reply)
      invariant relogged <==> Challenged(wire.sent)
    {
      var cancelled: bool, loginFails: bool, badBody: bool := *, *, *;
      if wire.steady { cancelled, loginFails, badBody := false, false, false; }
      if attempt > 0 && cancelled {
        return Failure(Cancelled);
      }
      if loginFails {
        return Failure(LoginFailed);
      }
      ghost var before := wire.sent;
      var reply := wire.Do(ifMatch);
      Extended(m, password, ifMatch, before, wire.sent);
      if reply.Transport? {
        if cancelled {
          return Failure(Cancelled);
        }
        lastErr := Failure(TransportError);
        if !retryable {
          return lastErr;
        }
      } else if reply.code == 401 && password && !relogged {
        if cancelled {
          return Failure(LoginFailed);
        }
        relogged := true;
        lastErr := Failure(ApiError(401));
      } else if reply.code == 429 || reply.code >= 500 {
        lastErr := Failure(ApiError(reply.code));
        if !retryable {
          return lastErr;
        }
      } else if reply.code >= 400 {
        return Failure(ApiError(reply.code));
      } else {
        return if badBody then Failure(BadBody) else Success;
      }
      attempt := attempt + 1;
    }
    return lastErr;
  }

  /** What a reply that ends a call of a replay-safe method with a transient failure must have been. */
  lemma TransientIsRepeated(m: Method, password: bool, sent: seq<Send>)
    requires sent != [] && (m.Get? || m.Head? || m.Options? || m.Put? || m.Patch?)
    ensures var told := Told(sent[|sent| - 1].reply);
            (told == Failure(TransportError)
             || (told.Failure? && told.error.ApiError? && (told.error.code == 429 || told.error.code >= 500))) ==>
              Repeated(m, password, sent, |sent| - 1)
  {
    hide Challenged;
  }

  /** The call, with what it means for each method: a POST or DELETE goes out a second time only after a 401,
      and every other method is given up on a transient failure only after six sends. */
  method DoJSON(wire: Wire, m: Method, password: bool, ifMatch: IfMatch) returns (r: Result)
    requires wire.sent == []
    modifies wire
    ensures Admissible(m, password, ifMatch, wire.sent)
    ensures r.Success? ==> wire.sent != [] && Told(wire.sent[|wire.sent| - 1].reply) == Success
    ensures r.Success? || r.error.TransportError? || r.error.ApiError? ==>
              && wire.sent != [] && r == Told(wire.sent[|wire.sent| - 1].reply)
              && (|wire.sent| == MAX_RETRIES + 1 || !Repeated(m, password, wire.sent, |wire.sent| - 1))
    ensures wire.steady ==> r.Success? || r.error.TransportError? || r.error.ApiError?
    ensures r == Failure(BadBody) ==> wire.sent != [] && Told(wire.sent[|wire.sent| - 1].reply) == Success
    ensures m.Post? || m.Delete? ==> |wire.sent| <= 2 && (|wire.sent| == 2 ==> wire.sent[0].reply == Status(401))
    ensures m.Get? || m.Head? || m.Options? || m.Put? || m.Patch? ==>
              (r == Failure(TransportError)
               || (r.Failure? && r.error.ApiError? && (r.error.code == 429 || r.error.code >= 500))) ==>
                |wire.sent| == 6
  {
    r := SendAndRetry(wire, m, password, ifMatch);
    if m.Post? || m.Delete? {
      UnsafeMethodsActOnce(m, password, ifMatch, wire.sent);
    } else if wire.sent != [] {
      TransientIsRepeated(m, password, wire.sent);
    }
    hide Admissible, Repeated, Told;
  }

  lemma Extended(m: Method, password: bool, ifMatch: IfMatch, before: seq<Send>, sent: seq<Send>)
    requires Admissible(m, password, ifMatch, before) && |before| <= MAX_RETRIES
    requires before != [] ==> Repeated(m, password, before, |before| - 1)
    requires |sent| == |before| + 1 && sent[..|before|] == before && Honest(sent[|before|], ifMatch)
    requires forall i: nat | i < |before| :: Later(sent[i], sent[|before|])
    ensures Admissible(m, password, ifMatch, sent)
    ensures Challenged(sent) <==> Challenged(before) || Unauthorized(sent[|before|].reply)
  {
    assert sent == before + [sent[|before|]];
    forall i: nat | i < |before| ensures sent[i] == before[i] && Repeated(m, password, sent, i) {
      assert Repeated(m, password, before, i);
      assert sent[..i] == before[..i];
    }
    if i :| 0 <= i < |before| && Unauthorized(before[i].reply) { assert Unauthorized(sent[i].reply); }
  }

  // ---------------------------------------------------------------- what callers rely on

  function Commits(sent: seq<Send>): nat {
    if sent == [] then 0 else (if sent[0].committed then 1 else 0) + Commits(sent[1..])
  }

  /** A POST or DELETE is sent at most twice, the second time only after a 401, so it takes effect at
      most once, and exactly once when the call succeeds. */
  lemma UnsafeMethodsActOnce(m: Method, password: bool, ifMatch: IfMatch, sent: seq<Send>)
    requires Admissible(m, password, ifMatch, sent) && (m.Post? || m.Delete?)
    ensures |sent| <= 2 && (|sent| == 2 ==> password && sent[0].reply == Status(401))
    ensures Commits(sent) <= 1
    ensures sent != [] && Told(sent[|sent| - 1].reply) == Success ==> Commits(sent) == 1
  {
    assert |sent| > 1 ==> Repeated(m, password, sent, 0);
    assert |sent| > 2 ==> Repeated(m, password, sent, 1);
    if |sent| == 2 {
      assert Honest(sent[0], ifMatch);
      assert Commits(sent[1..]) == if sent[1].committed then 1 else 0;
    }
    if |sent| == 1 { assert Honest(sent[0], ifMatch); }
  }

  /** A rejection of a POST or DELETE that is neither transient nor a lost response means that it had no
      effect: only transport errors and 5xx replies are ambiguous. */
  lemma RejectionHasNoEffect(m: Method, password: bool, ifMatch: IfMatch, sent: seq<Send>)
    requires Admissible(m, password, ifMatch, sent) && (m.Post? || m.Delete?) && sent != []
    requires sent[|sent| - 1].reply.Status? && 400 <= sent[|sent| - 1].reply.code < 500
    ensures Commits(sent) == 0
  {
    UnsafeMethodsActOnce(m, password, ifMatch, sent);
    assert Honest(sent[0], ifMatch) && Honest(sent[|sent| - 1], ifMatch);
    if |sent| == 2 { assert Commits(sent[1..]) == 0; }
  }

  lemma {:induction false} CommitsSplit(sent: seq<Send>, i: nat)
    requires i < |sent| && forall j: nat | j < |sent| && j != i :: !sent[j].committed
    ensures Commits(sent) == if sent[i].committed then 1 else 0
    decreases |sent|
  {
    if i > 0 {
      CommitsSplit(sent[1..], i - 1);
    } else {
      NoCommits(sent[1..]);
    }
  }

  lemma {:induction false} NoCommits(sent: seq<Send>)
    requires forall j: nat | j < |sent| :: !sent[j].committed
    ensures Commits(sent) == 0
  {
    if sent != [] { NoCommits(sent[1..]); }
  }

  /** A conditional PUT or PATCH is sent up to six times but takes effect at most once, because the version
      it requires is gone as soon as it has; and a final 412 does not mean that it had no effect, unless
      no earlier reply was lost. */
  lemma ConditionalWritesActOnce(m: Method, password: bool, ifMatch: IfMatch, sent: seq<Send>)
    requires Admissible(m, password, ifMatch, sent) && ifMatch.Some?
    ensures Commits(sent) <= 1
    ensures (sent != [] && sent[|sent| - 1].reply == Status(412)
             && forall i: nat | i < |sent| :: sent[i].reply.Status? && sent[i].reply.code < 500) ==> Commits(sent) == 0
  {
    if i: nat :| i < |sent| && sent[i].committed {
      forall j: nat | j < |sent| && j != i ensures !sent[j].committed {
        assert Honest(sent[i], ifMatch) && Honest(sent[j], ifMatch);
        assert if i < j then Later(sent[i], sent[j]) else Later(sent[j], sent[i]);
      }
      CommitsSplit(sent, i);
      if i < |sent| - 1 { assert Repeated(m, password, sent, i); }
    } else {
      NoCommits(sent);
    }
  }

  /** Nobody else writes: the first send meets `start`, and every later one what the one before it left. */
  predicate Alone(start: nat, sent: seq<Send>) {
    && (sent != [] ==> sent[0].met == start)
    && forall i: nat, j: nat | i + 1 == j < |sent| :: sent[j].met == Left(sent[i])
  }

  function Left(s: Send): nat {
    if s.committed then s.met + 1 else s.met
  }

  lemma {:induction false} UnchangedMeets(start: nat, sent: seq<Send>, i: nat)
    requires Alone(start, sent) && i < |sent| && forall j: nat | j < i :: !sent[j].committed
    ensures sent[i].met == start
  {
    if i > 0 {
      UnchangedMeets(start, sent, i - 1);
      assert Left(sent[i - 1]) == start;
    }
  }

  /** When nobody else writes, a conditional write ends in a 412 if and only if it found its version gone
      to begin with or had taken effect itself with the response lost. */
  lemma ConflictAloneIsOwn(m: Method, password: bool, version: nat, start: nat, sent: seq<Send>)
    requires Admissible(m, password, Some(version), sent) && Alone(start, sent) && sent != []
    requires sent[|sent| - 1].reply == Status(412)
    ensures Commits(sent) == if start == version then 1 else 0
  {
    ConditionalWritesActOnce(m, password, Some(version), sent);
    assert Honest(sent[|sent| - 1], Some(version));
    var i := FirstCommit(sent);
    UnchangedMeets(start, sent, if i < |sent| then i else |sent| - 1);
    if i < |sent| {
      assert Honest(sent[i], Some(version));
      forall j: nat | j < |sent| && j != i ensures !sent[j].committed {
        assert Honest(sent[j], Some(version));
        if i < j { assert Later(sent[i], sent[j]); }
      }
      CommitsSplit(sent, i);
    } else {
      NoCommits(sent);
    }
  }

  lemma FirstCommit(sent: seq<Send>) returns (i: nat)
    ensures i <= |sent| && (forall j: nat | j < i :: !sent[j].committed) && (i < |sent| ==> sent[i].committed)
  {
    i := 0;
    while i < |sent| && !sent[i].committed
      invariant i <= |sent| && forall j: nat | j < i :: !sent[j].committed
    {
      i := i + 1;
    }
  }

  /** The replay that the read-modify-write loops must survive: the write takes effect, its response is
      lost, and the replay is told that the precondition failed. */
  lemma ReplayedWriteReportsConflict(version: nat)
    ensures var sent := [Send(Status(503), true, version), Send(Status(412), false, version + 1)];
            && Admissible(Put, false, Some(version), sent) && Alone(version, sent) && Commits(sent) == 1
            && !Repeated(Put, false, sent, 1)
  {
    var sent := [Send(Status(503), true, version), Send(Status(412), false, version + 1)];
    assert Repeated(Put, false, sent, 0);
    CommitsSplit(sent, 0);
  }

  /** Without If-Match a replay can take effect again, over what another caller wrote in between. */
  lemma ReplayedBlindWriteActsTwice(version: nat)
    ensures var sent := [Send(Status(503), true, version), Send(Status(200), true, version + 2)];
            Admissible(Put, false, None, sent) && Commits(sent) == 2
  {
    var sent := [Send(Status(503), true, version), Send(Status(200), true, version + 2)];
    assert Repeated(Put, false, sent, 0);
    assert sent[1..] == [sent[1]] && Commits([sent[1]]) == 1;
  }
}
