/** Slash-separated paths. */
module Paths {
  /** `p` is `q` or lies below it. */
  predicate Within(p: string, q: string) {
    p == q || q + "/" <= p
  }

  /** What follows the outer path begins with a slash. */
  lemma WithinIff(p: string, q: string)
    ensures Within(p, q) <==> p == q || (|p| > |q| && p[..|q|] == q && p[|q|] == '/')
  {
    if |p| > |q| && p[..|q|] == q && p[|q|] == '/' { assert p[..|q| + 1] == q + "/"; }
    if q + "/" <= p { assert p[..|q| + 1] == q + "/"; }
  }

  /** Of two names in one directory neither lies below the other. */
  lemma SiblingsAreApart(base: string, m: string, n: string)
    requires m != n && '/' !in m && '/' !in n
    ensures !Within(base + "/" + m, base + "/" + n)
  {
    var p, q := base + "/" + m, base + "/" + n;
    WithinIff(p, q);
    assert p[|base| + 1..] == m && q[|base| + 1..] == n;
  }

  /** What is made with a path as its base lies below it. */
  lemma JoinedIsWithin(q: string, rest: string)
    ensures Within(q + "/" + rest, q)
  {
    assert (q + "/" + rest)[..|q| + 1] == q + "/";
  }

  lemma WithinTransitive(p: string, q: string, r: string)
    requires Within(p, q) && Within(q, r)
    ensures Within(p, r)
  {
    if p != q && q != r {
      assert q[..|r| + 1] == r + "/";
      assert p[..|r| + 1] == q[..|r| + 1];
    }
  }
}
