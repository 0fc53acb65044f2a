/** Choosing the visible mount among those stacked on one target. */
module MountTable {
  import opened Wrappers

  type MountId = string

  datatype Mount = Mount(id: MountId, parent: MountId, source: string)

  /** A line of the mount table: something that is not a mount record, or a record and its mount point. */
  datatype Line = Other | Entry(point: string, mount: Mount)

  datatype Choice = Visible(mount: Option<Mount>) | Ambiguous | Cyclic

  /** The records on one target, in line order. */
  function Matches(lines: seq<Line>, target: string): seq<Mount>
    decreases |lines|
  {
    if lines == [] then []
    else
      var front, last := Matches(lines[..|lines| - 1], target), lines[|lines| - 1];
      if last.Entry? && last.point == target then front + [last.mount] else front
  }

  predicate IsParent(ms: seq<Mount>, id: MountId) {
    exists m <- ms :: m.parent == id
  }

  /** Position `i` holds a record on which no other match is mounted. */
  predicate TopAt(ms: seq<Mount>, i: nat) {
    i < |ms| && !IsParent(ms, ms[i].id)
  }

  ghost predicate Outcome(ms: seq<Mount>, r: Choice) {
    match r
    case Visible(None) => ms == []
    case Visible(Some(m)) => exists i: nat :: TopAt(ms, i) && ms[i] == m && forall j: nat :: TopAt(ms, j) ==> j == i
    case Ambiguous => exists i: nat, j: nat :: i < j && TopAt(ms, i) && TopAt(ms, j)
    case Cyclic => ms != [] && forall i: nat :: !TopAt(ms, i)
  }

  /** Returns the one match that is no other match's parent; otherwise says whether there are several or none. */
  method ParseMountInfo(lines: seq<Line>, target: string) returns (r: Choice)
    ensures Outcome(Matches(lines, target), r)
  {
    var matches: seq<Mount> := [];
    assert lines[..|lines|] == lines;
    for i := 0 to |lines|
      invariant matches == Matches(lines[..i], target)
    {
      assert lines[..i + 1][..i] == lines[..i];
      if lines[i].Entry? && lines[i].point == target {
        matches := matches + [lines[i].mount];
      }
    }
    if |matches| == 0 { return Visible(None); }
    var hidden: set<MountId> := {};
    for i := 0 to |matches|
      invariant forall id :: id in hidden <==> exists j | 0 <= j < i :: matches[j].parent == id
    {
      hidden := hidden + {matches[i].parent};
    }
    assert forall id :: id in hidden <==> IsParent(matches, id);
    var topmost: Option<nat> := None;
    for i := 0 to |matches|
      invariant topmost.Some? ==> topmost.value < i && TopAt(matches, topmost.value)
      invariant forall j: nat | j < i && TopAt(matches, j) :: topmost == Some(j)
    {
      if matches[i].id in hidden { continue; }
      if topmost.Some? {
        assert topmost.value < i && TopAt(matches, topmost.value) && TopAt(matches, i);
        return Ambiguous;
      }
      topmost := Some(i);
    }
    if topmost.None? { return Cyclic; }
    assert TopAt(matches, topmost.value) && forall j: nat :: TopAt(matches, j) ==> j == topmost.value;
    return Visible(Some(matches[topmost.value]));
  }

  // ---------------------------------------------------------------- what the outcomes mean

  lemma OutcomeIsUnique(ms: seq<Mount>, r: Choice, q: Choice)
    requires Outcome(ms, r) && Outcome(ms, q)
    ensures r == q
  {
  }

  /** A record that is returned is the only match, by content, that is no other match's parent. */
  lemma ReturnedIsTheOnlyTop(ms: seq<Mount>, m: Mount, other: Mount)
    requires Outcome(ms, Visible(Some(m))) && other in ms
    ensures m in ms && !IsParent(ms, m.id) && (!IsParent(ms, other.id) <==> other == m)
  {
    var i: nat :| TopAt(ms, i) && ms[i] == m && forall j: nat :: TopAt(ms, j) ==> j == i;
    var j: nat :| j < |ms| && ms[j] == other;
    assert !IsParent(ms, other.id) ==> TopAt(ms, j);
  }

  ghost predicate DistinctIds(ms: seq<Mount>) {
    forall i, j | 0 <= i < j < |ms| :: ms[i].id != ms[j].id
  }

  /** The same records, each once, in any order. */
  ghost predicate Reordered(a: seq<Mount>, b: seq<Mount>) {
    DistinctIds(a) && DistinctIds(b) && forall m :: m in a <==> m in b
  }

  lemma TopMoves(a: seq<Mount>, b: seq<Mount>, i: nat) returns (j: nat)
    requires Reordered(a, b) && TopAt(a, i)
    ensures TopAt(b, j) && b[j] == a[i]
  {
    assert a[i] in b;
    j :| 0 <= j < |b| && b[j] == a[i];
  }

  /** The outcome does not depend on the order of the lines. */
  lemma OrderDoesNotMatter(a: seq<Mount>, b: seq<Mount>, r: Choice, q: Choice)
    requires Reordered(a, b) && Outcome(a, r) && Outcome(b, q)
    ensures r == q
  {
    OutcomeMoves(a, b, r);
    OutcomeIsUnique(b, q, r);
  }

  lemma OutcomeMoves(a: seq<Mount>, b: seq<Mount>, r: Choice)
    requires Reordered(a, b) && Outcome(a, r)
    ensures Outcome(b, r)
  {
    match r
    case Visible(None) => EmptyReordered(b, a);
    case Visible(Some(m)) =>
      var i: nat :| TopAt(a, i) && a[i] == m && forall j: nat :: TopAt(a, j) ==> j == i;
      var k := TopMoves(a, b, i);
      forall j: nat | TopAt(b, j) ensures j == k {
        var h := TopMoves(b, a, j);
        assert h == i && b[j] == b[k];
      }
    case Ambiguous =>
      var i: nat, j: nat :| i < j && TopAt(a, i) && TopAt(a, j);
      var k := TopMoves(a, b, i);
      var h := TopMoves(a, b, j);
      assert b[k] != b[h];
      var first, second := if k < h then k else h, if k < h then h else k;
      assert first < second && TopAt(b, first) && TopAt(b, second);
    case Cyclic =>
      EmptyReordered(a, b);
      forall j: nat ensures TopAt(b, j) ==> exists h: nat :: TopAt(a, h) {
        if TopAt(b, j) { var h := TopMoves(b, a, j); }
      }
  }

  lemma EmptyReordered(a: seq<Mount>, b: seq<Mount>)
    requires forall m :: m in a <==> m in b
    ensures b == [] ==> a == []
  {
    assert a != [] ==> a[0] in a;
  }

  // ---------------------------------------------------------------- stacks

  /** Mounts stacked bottom to top: each is mounted on the one before, the first on something else. */
  ghost predicate Stack(s: seq<Mount>) {
    && s != [] && DistinctIds(s)
    && (forall i | 0 <= i < |s| - 1 :: s[i + 1].parent == s[i].id)
    && (forall i | 0 <= i < |s| :: s[0].parent != s[i].id)
  }

  lemma StackParents(s: seq<Mount>, i: nat)
    requires Stack(s) && i < |s|
    ensures TopAt(s, i) <==> i == |s| - 1
  {
    if i < |s| - 1 {
      assert s[i + 1] in s && s[i + 1].parent == s[i].id;
    } else {
      forall j | 0 <= j < |s| ensures s[j].parent != s[i].id {
        assert j == 0 || (s[j].parent == s[j - 1].id && s[j - 1].id != s[i].id);
      }
    }
  }

  /** Whatever the order of the lines, a stack yields its top. */
  lemma StackYieldsTop(s: seq<Mount>, ms: seq<Mount>, r: Choice)
    requires Stack(s) && Reordered(s, ms) && Outcome(ms, r)
    ensures r == Visible(Some(s[|s| - 1]))
  {
    var top := |s| - 1;
    forall i: nat | i < |s| ensures TopAt(s, i) <==> i == top { StackParents(s, i); }
    assert TopAt(s, top) && s[top] == s[|s| - 1] && forall j: nat :: TopAt(s, j) ==> j == top;
    assert Outcome(s, Visible(Some(s[top])));
    OrderDoesNotMatter(s, ms, Visible(Some(s[top])), r);
  }

  // ---------------------------------------------------------------- cycles

  /** Parent links among the matches go strictly down. */
  ghost predicate Acyclic(ms: seq<Mount>, depth: map<MountId, nat>) {
    && (forall m <- ms :: m.id in depth)
    && (forall m, n | m in ms && n in ms && m.parent == n.id :: depth[n.id] < depth[m.id])
  }

  lemma {:induction false} Deepest(ms: seq<Mount>, depth: map<MountId, nat>) returns (i: nat)
    requires ms != [] && forall m <- ms :: m.id in depth
    ensures i < |ms| && forall m <- ms :: depth[m.id] <= depth[ms[i].id]
    decreases |ms|
  {
    i := 0;
    if |ms| > 1 {
      var j := Deepest(ms[1..], depth);
      assert ms == [ms[0]] + ms[1..];
      i := if depth[ms[0].id] < depth[ms[j + 1].id] then j + 1 else 0;
    }
  }

  /** Acyclic parent links never lead to the cyclic error. */
  lemma AcyclicNeverCyclic(ms: seq<Mount>, depth: map<MountId, nat>, r: Choice)
    requires Acyclic(ms, depth) && Outcome(ms, r)
    ensures !r.Cyclic?
  {
    if ms != [] {
      var i := Deepest(ms, depth);
      forall m | m in ms ensures m.parent != ms[i].id {
        assert depth[m.id] <= depth[ms[i].id] && ms[i] in ms;
      }
      assert TopAt(ms, i);
    }
  }
}
