/** String operations of Go's standard library, as far as the model needs them. */
module Text {
  predicate IsHex(c: char) {
    '0' <= c <= '9' || 'a' <= c <= 'f' || 'A' <= c <= 'F'
  }

  predicate IsSpace(c: char) {
    || '\t' <= c <= '\r' || c == ' ' || c == '\U{0085}' || c == '\U{00A0}' || c == '\U{1680}'
    || '\U{2000}' <= c <= '\U{200A}' || c == '\U{2028}' || c == '\U{2029}' || c == '\U{202F}'
    || c == '\U{205F}' || c == '\U{3000}'
  }

  /** The white space of Unicode, character by character. */
  lemma SpacesAre(c: char)
    ensures IsSpace(c) <==> c in {
              '\t', '\n', '\U{000B}', '\U{000C}', '\r', ' ', '\U{0085}', '\U{00A0}', '\U{1680}', '\U{2000}',
              '\U{2001}', '\U{2002}', '\U{2003}', '\U{2004}', '\U{2005}', '\U{2006}', '\U{2007}', '\U{2008}',
              '\U{2009}', '\U{200A}', '\U{2028}', '\U{2029}', '\U{202F}', '\U{205F}', '\U{3000}'}
  {
  }

  function TrimSpace(s: string): string
    decreases |s|
  {
    if s != "" && IsSpace(s[0]) then TrimSpace(s[1..])
    else if s != "" && IsSpace(s[|s| - 1]) then TrimSpace(s[..|s| - 1])
    else s
  }

  function TrimSlashes(s: string): (r: string)
    ensures r == "" || r[|r| - 1] != '/'
    decreases |s|
  {
    if s != "" && s[|s| - 1] == '/' then TrimSlashes(s[..|s| - 1]) else s
  }

  predicate Trimmed(s: string) {
    s == "" || (!IsSpace(s[0]) && !IsSpace(s[|s| - 1]))
  }

  lemma {:induction false} TrimSpaceTrims(s: string)
    ensures Trimmed(TrimSpace(s)) && (forall c <- TrimSpace(s) :: c in s)
    ensures Trimmed(s) ==> TrimSpace(s) == s
    decreases |s|
  {
    if s != "" && IsSpace(s[0]) { TrimSpaceTrims(s[1..]); }
    else if s != "" && IsSpace(s[|s| - 1]) { TrimSpaceTrims(s[..|s| - 1]); }
  }

  /** Lower case of ASCII letters. */
  function Lower(c: char): char {
    if 'A' <= c <= 'Z' then c + ' ' else c
  }

  function ToLower(s: string): (r: string)
    ensures |r| == |s| && forall i | 0 <= i < |s| :: r[i] == Lower(s[i])
  {
    seq(|s|, i requires 0 <= i < |s| => Lower(s[i]))
  }

  lemma ToLowerTwice(s: string)
    ensures ToLower(ToLower(s)) == ToLower(s)
  {
  }

  /** Case folding as far as it can meet an ASCII letter: the long s and the Kelvin sign do. */
  function Fold(c: char): char {
    if c == '\U{017F}' then 's' else if c == '\U{212A}' then 'k' else Lower(c)
  }

  predicate EqualFold(a: string, b: string) {
    |a| == |b| && forall i | 0 <= i < |a| :: Fold(a[i]) == Fold(b[i])
  }

  /** Lowering changes the letters A to Z alone, each to its small letter. */
  lemma LowerIs(c: char)
    ensures 'A' <= c <= 'Z' ==> 'a' <= Lower(c) <= 'z' && Lower(c) - 'a' == c - 'A'
    ensures !('A' <= c <= 'Z') ==> Lower(c) == c
  {
  }

  /** Among ASCII strings, equal up to case is equal in lower case; two other letters fold into ASCII ones. */
  lemma EqualFoldIff(a: string, b: string)
    ensures (forall c <- a + b :: c < '\U{0080}') ==> (EqualFold(a, b) <==> ToLower(a) == ToLower(b))
    ensures EqualFold("\U{017F}\U{212A}", "sK")
  {
    if forall c <- a + b :: c < '\U{0080}' {
      assert forall i | 0 <= i < |a| :: a[i] in a + b;
      assert forall i | 0 <= i < |b| :: b[i] in a + b;
      assert forall i | 0 <= i < |a| :: Fold(a[i]) == ToLower(a)[i];
      assert forall i | 0 <= i < |b| :: Fold(b[i]) == ToLower(b)[i];
    }
  }

  lemma EqualFoldStarts(a: string, b: string)
    requires a != "" && b != ""
    ensures EqualFold(a, b) ==> Fold(a[0]) == Fold(b[0])
  {
  }

  // ---------------------------------------------------------------- cutting and splitting

  /** Position of the first `c`, or the length. */
  function Index(s: string, c: char): (i: nat)
    ensures i <= |s| && (forall j | 0 <= j < i :: s[j] != c) && (i < |s| ==> s[i] == c)
  {
    if s == "" || s[0] == c then 0 else 1 + Index(s[1..], c)
  }

  lemma {:induction false} IndexIs(s: string, c: char, i: nat)
    requires i <= |s| && (forall j | 0 <= j < i :: s[j] != c) && (i < |s| ==> s[i] == c)
    ensures Index(s, c) == i
  {
  }

  function Before(s: string, c: char): string { s[..Index(s, c)] }

  predicate Has(s: string, c: char) { Index(s, c) < |s| }

  function After(s: string, c: char): string
    requires Has(s, c)
  {
    s[Index(s, c) + 1..]
  }

  function Split(s: string, c: char): (r: seq<string>)
    ensures r != []
    ensures forall p <- r :: c !in p && forall x <- p :: x in s
    decreases |s|
  {
    if Has(s, c) then [Before(s, c)] + Split(After(s, c), c) else [s]
  }

  lemma CutJoined(a: string, b: string, c: char)
    ensures var s := a + [c] + b;
            Has(s, c) && if Has(a, c) then Before(s, c) == Before(a, c) && After(s, c) == After(a, c) + [c] + b
                         else Before(s, c) == a && After(s, c) == b
  {
    var s, i := a + [c] + b, Index(a, c);
    IndexIs(s, c, i);
    assert i < |a| ==> s[..i] == a[..i] && s[i + 1..] == a[i + 1..] + [c] + b;
    assert i == |a| ==> s[..i] == a && s[i + 1..] == b;
  }

  lemma {:induction false} SplitJoined(a: string, b: string, c: char)
    ensures Split(a + [c] + b, c) == Split(a, c) + Split(b, c)
    decreases |a|
  {
    CutJoined(a, b, c);
    if Has(a, c) { SplitJoined(After(a, c), b, c); }
    hide Before, Has;
  }

  // ---------------------------------------------------------------- order

  /** Strictly before in the order by code points. */
  predicate Below(a: string, b: string) {
    b != "" && (a == "" || a[0] < b[0] || (a[0] == b[0] && Below(a[1..], b[1..])))
  }

  lemma {:induction false} BelowTransitive(a: string, b: string, c: string)
    requires Below(a, b) && Below(b, c)
    ensures Below(a, c)
  {
    if a != "" && a[0] == b[0] == c[0] { BelowTransitive(a[1..], b[1..], c[1..]); }
  }

  lemma {:induction false} BelowIrreflexive(a: string)
    ensures !Below(a, a)
  {
    if a != "" { BelowIrreflexive(a[1..]); }
  }

  lemma {:induction false} BelowTotal(a: string, b: string)
    ensures a == b || Below(a, b) || Below(b, a)
  {
    if a != "" && b != "" && a[0] == b[0] {
      BelowTotal(a[1..], b[1..]);
      assert a == [a[0]] + a[1..] && b == [b[0]] + b[1..];
    }
  }

  /** The order is decided by the first difference, and a proper prefix comes first. */
  lemma {:induction false} BelowIff(a: string, b: string)
    ensures Below(a, b) <==> exists i: nat | i <= |a| && i < |b| ::
                               a[..i] == b[..i] && (i == |a| || a[i] < b[i])
    decreases |a|
  {
    if Below(a, b) {
      if a == "" || a[0] < b[0] {
        assert a[..0] == b[..0];
      } else {
        BelowIff(a[1..], b[1..]);
        var i: nat :| i <= |a| - 1 && i < |b| - 1 && a[1..][..i] == b[1..][..i]
                      && (i == |a| - 1 || a[1..][i] < b[1..][i]);
        assert a[..i + 1] == [a[0]] + a[1..][..i] && b[..i + 1] == [b[0]] + b[1..][..i];
      }
    }
    if i: nat :| i <= |a| && i < |b| && a[..i] == b[..i] && (i == |a| || a[i] < b[i]) {
      if i > 0 {
        assert a[0] == a[..i][0] && b[0] == b[..i][0];
        assert a[1..][..i - 1] == a[..i][1..] && b[1..][..i - 1] == b[..i][1..];
        BelowIff(a[1..], b[1..]);
      }
    }
  }

  predicate StrictlySorted(s: seq<string>) {
    forall i, j | 0 <= i < j < |s| :: Below(s[i], s[j])
  }

  /** `s` lists the set in strictly ascending order. */
  ghost predicate Lists(s: seq<string>, elements: set<string>) {
    StrictlySorted(s) && forall x :: x in s <==> x in elements
  }

  lemma FirstIsListed(s: seq<string>, elements: set<string>)
    requires Lists(s, elements)
    ensures s != [] ==> s[0] in elements
  {
  }

  /** A set has one sorted listing. */
  lemma {:induction false} ListingIsUnique(a: seq<string>, b: seq<string>, elements: set<string>)
    requires Lists(a, elements) && Lists(b, elements)
    ensures a == b
    decreases |a|
  {
    FirstIsListed(a, elements);
    FirstIsListed(b, elements);
    if a != [] {
      SameFirst(a, b);
      TailLists(a, elements);
      TailLists(b, elements);
      ListingIsUnique(a[1..], b[1..], elements - {a[0]});
      assert a == [a[0]] + a[1..] && b == [b[0]] + b[1..];
    }
  }

  lemma SameFirst(a: seq<string>, b: seq<string>)
    requires a != [] && b != [] && StrictlySorted(a) && StrictlySorted(b) && a[0] in b && b[0] in a
    ensures a[0] == b[0]
  {
    if a[0] != b[0] {
      BelowTransitive(a[0], b[0], a[0]);
      BelowIrreflexive(a[0]);
    }
  }

  lemma TailLists(s: seq<string>, elements: set<string>)
    requires Lists(s, elements) && s != []
    ensures Lists(s[1..], elements - {s[0]})
  {
    forall x ensures x in s[1..] <==> x in elements - {s[0]} {
      if x in s && x != s[0] {
        var i :| 0 <= i < |s| && s[i] == x;
        assert s[1..][i - 1] == x;
      }
      if x in s[1..] {
        var i :| 0 <= i < |s| - 1 && s[1..][i] == x;
        assert Below(s[0], s[i + 1]);
        BelowIrreflexive(x);
      }
    }
  }

  /** Where `x` belongs in a sorted list that does not hold it. */
  function Place(s: seq<string>, x: string): (i: nat)
    requires StrictlySorted(s) && x !in s
    ensures i <= |s| && (forall j | 0 <= j < i :: Below(s[j], x)) && (forall j | i <= j < |s| :: Below(x, s[j]))
  {
    if s == [] then 0
    else
      BelowTotal(s[0], x);
      if Below(s[0], x) then 1 + Place(s[1..], x)
      else
        AllAbove(s, x);
        0
  }

  lemma AllAbove(s: seq<string>, x: string)
    requires s != [] && StrictlySorted(s) && Below(x, s[0])
    ensures forall j | 0 <= j < |s| :: Below(x, s[j])
  {
    forall j | 0 < j < |s| ensures Below(x, s[j]) { BelowTransitive(x, s[0], s[j]); }
  }

  /** Collects the elements in the arbitrary order of a hash map and sorts them. */
  method Sorted(elements: set<string>) returns (out: seq<string>)
    ensures Lists(out, elements)
  {
    out := [];
    var todo := elements;
    while todo != {}
      invariant todo <= elements && Lists(out, elements - todo)
      decreases |todo|
    {
      var x :| x in todo;
      var i := Place(out, x);
      Inserted(out, elements - todo, x, i);
      out := out[..i] + [x] + out[i..];
      todo := todo - {x};
      assert elements - todo == (elements - (todo + {x})) + {x};
    }
  }

  lemma Inserted(s: seq<string>, elements: set<string>, x: string, i: nat)
    requires Lists(s, elements) && x !in elements && i == Place(s, x)
    ensures Lists(s[..i] + [x] + s[i..], elements + {x})
  {
    var r := s[..i] + [x] + s[i..];
    forall y ensures y in r <==> y in elements + {x} {
      assert s == s[..i] + s[i..];
    }
    forall j, k | 0 <= j < k < |r| ensures Below(r[j], r[k]) {
      if j < i < k { assert r[k] == s[k - 1] && Below(s[j], s[k - 1]); }
    }
  }
}
