/** Backend names derived from request names: volume exports and shares, and buckets.

    Digests are parameters: 32 lower-case hexadecimal characters computed from the original name. */
module ResourceNames {
  import opened Text
  import opened Wrappers

  predicate Alnum(c: char) {
    'a' <= c <= 'z' || '0' <= c <= '9'
  }

  predicate NameChar(c: char) {
    Alnum(c) || c == '-'
  }

  predicate Hex(s: string) {
    forall i | 0 <= i < |s| :: '0' <= s[i] <= '9' || 'a' <= s[i] <= 'f'
  }

  predicate Digest(s: string) {
    |s| == 32 && Hex(s)
  }

  /** The runes whose lower case is an ASCII letter include the Kelvin sign and the dotted capital I. */
  function LowerRune(c: char): char {
    if c == '\U{212A}' then 'k' else if c == '\U{0130}' then 'i' else Lower(c)
  }

  function LowerRunes(s: string): (r: string)
    ensures |r| == |s| && forall i | 0 <= i < |s| :: r[i] == LowerRune(s[i])
  {
    seq(|s|, i requires 0 <= i < |s| => LowerRune(s[i]))
  }

  /** Lower case of ASCII, and of the two others. */
  lemma LowerRunesAre(s: string)
    ensures (forall c <- s :: c < '\U{0080}') ==> LowerRunes(s) == ToLower(s)
    ensures LowerRunes("\U{212A}\U{0130}") == "ki"
    ensures forall i | 0 <= i < |s| :: LowerRunes(s)[i] != Lower(s[i]) ==> s[i] in "\U{212A}\U{0130}"
  {
    assert forall i | 0 <= i < |s| :: s[i] in s;
    if forall c <- s :: c < '\U{0080}' {
      assert forall i | 0 <= i < |s| :: LowerRunes(s)[i] == ToLower(s)[i];
    }
  }

  lemma DigestIff(s: string)
    ensures Digest(s) <==> |s| == 32 && forall c <- s :: c in "0123456789abcdef"
  {
    assert forall i | 0 <= i < |s| :: s[i] in s;
    forall c: char
      ensures c in "0123456789abcdef" <==> '0' <= c <= '9' || 'a' <= c <= 'f' {
      HexLetters(c);
    }
  }

  lemma HexLetters(c: char)
    ensures c in "0123456789abcdef" <==> '0' <= c <= '9' || 'a' <= c <= 'f'
  {
    var hex := "0123456789abcdef";
    if '0' <= c <= '9' { assert hex[(c - '0') as int] == c; }
    if 'a' <= c <= 'f' { assert hex[10 + (c - 'a') as int] == c; }
  }

  // ---------------------------------------------------------------- what a builder loop produces

  predicate EndsInHyphen(s: string) {
    s != "" && s[|s| - 1] == '-'
  }

  /** Letters and digits are kept; any run of other characters becomes one hyphen, none at the front. */
  function Hyphenated(s: string): string
    decreases |s|
  {
    if s == "" then ""
    else
      var out, c := Hyphenated(s[..|s| - 1]), s[|s| - 1];
      if Alnum(c) then out + [c] else if out != "" && !EndsInHyphen(out) then out + ['-'] else out
  }

  lemma HyphenatedStep(front: string, c: char)
    ensures var out := Hyphenated(front);
            Hyphenated(front + [c])
            == if Alnum(c) then out + [c] else if out != "" && !EndsInHyphen(out) then out + ['-'] else out
  {
    assert (front + [c])[..|front|] == front;
  }

  function TrimRight(s: string): string
    decreases |s|
  {
    if EndsInHyphen(s) then TrimRight(s[..|s| - 1]) else s
  }

  function TrimLeft(s: string): string {
    if s != "" && s[0] == '-' then TrimLeft(s[1..]) else s
  }

  function Trim(s: string): string {
    TrimRight(TrimLeft(s))
  }

  /** The letters and digits, in order. */
  function Letters(s: string): string
    decreases |s|
  {
    if s == "" then ""
    else if Alnum(s[|s| - 1]) then Letters(s[..|s| - 1]) + [s[|s| - 1]]
    else Letters(s[..|s| - 1])
  }

  lemma LettersStep(front: string, c: char)
    ensures Letters(front + [c]) == if Alnum(c) then Letters(front) + [c] else Letters(front)
  {
    assert (front + [c])[..|front|] == front;
  }

  predicate SingleHyphens(s: string) {
    forall i | 0 <= i < |s| - 1 :: s[i] != '-' || s[i + 1] != '-'
  }

  /** A legal stem: letters, digits and single hyphens, with a letter or digit at both ends. */
  predicate Stem(s: string) {
    (forall i | 0 <= i < |s| :: NameChar(s[i])) && SingleHyphens(s) && (s != "" ==> s[0] != '-' && s[|s| - 1] != '-')
  }

  /** These are all of them, and nothing else. */
  lemma {:induction false} LettersAre(s: string, c: char)
    ensures c in Letters(s) <==> c in s && ('a' <= c <= 'z' || '0' <= c <= '9')
    decreases |s|
  {
    if s != "" {
      assert s == s[..|s| - 1] + [s[|s| - 1]];
      LettersAre(s[..|s| - 1], c);
    }
  }

  lemma {:induction false} HyphenatedShape(s: string)
    ensures var h := Hyphenated(s);
            && (forall i | 0 <= i < |h| :: NameChar(h[i])) && SingleHyphens(h) && (h != "" ==> h[0] != '-')
            && |h| <= |s| && Letters(h) == Letters(s)
    decreases |s|
  {
    if s != "" {
      var front := s[..|s| - 1];
      HyphenatedShape(front);
      var out, h := Hyphenated(front), Hyphenated(s);
      if h != out { assert h[..|h| - 1] == out; }
    }
  }

  lemma {:induction false} TrimLeftKeeps(s: string)
    ensures (s == "" || s[0] != '-') ==> TrimLeft(s) == s
    ensures TrimLeft(s) == "" || TrimLeft(s)[0] != '-'
    ensures exists k :: 0 <= k <= |s| && TrimLeft(s) == s[k..]
  {
    if s != "" && s[0] == '-' {
      TrimLeftKeeps(s[1..]);
      var k :| 0 <= k <= |s[1..]| && TrimLeft(s[1..]) == s[1..][k..];
      assert TrimLeft(s) == s[k + 1..];
    } else {
      assert s == s[0..];
    }
  }

  lemma {:induction false} TrimRightKeeps(s: string)
    ensures TrimRight(s) <= s && !EndsInHyphen(TrimRight(s)) && Letters(TrimRight(s)) == Letters(s)
    ensures !EndsInHyphen(s) ==> TrimRight(s) == s
    decreases |s|
  {
    if EndsInHyphen(s) { TrimRightKeeps(s[..|s| - 1]); }
  }

  lemma {:induction false} OnlySeparators(front: string, sep: string)
    requires forall c <- sep :: !Alnum(c)
    ensures var out := Hyphenated(front);
            Hyphenated(front + sep) == if sep == "" || out == "" || EndsInHyphen(out) then out else out + "-"
    decreases |sep|
  {
    if sep == "" {
      assert front + sep == front;
    } else {
      var less, c := sep[..|sep| - 1], sep[|sep| - 1];
      OnlySeparators(front, less);
      assert front + sep == (front + less) + [c];
      HyphenatedStep(front + less, c);
      hide Hyphenated;
    }
  }

  lemma {:induction false} WordIsKept(front: string, word: string)
    requires forall c <- word :: Alnum(c)
    ensures Hyphenated(front + word) == Hyphenated(front) + word
    decreases |word|
  {
    if word == "" {
      assert front + word == front;
    } else {
      var less, c := word[..|word| - 1], word[|word| - 1];
      WordIsKept(front, less);
      assert front + word == (front + less) + [c];
      HyphenatedStep(front + less, c);
      hide Hyphenated;
    }
  }

  /** Between two words whatever is no letter or digit becomes one hyphen, and before the first nothing. */
  lemma SeparatorsBecomeOneHyphen(front: string, sep: string, word: string)
    requires sep != "" && (forall c <- sep :: !Alnum(c)) && forall c <- word :: Alnum(c)
    ensures Hyphenated(sep + word) == word
    ensures front != "" && Alnum(front[|front| - 1])
            ==> Hyphenated(front + sep + word) == Hyphenated(front) + "-" + word
  {
    WordIsKept(sep, word);
    OnlySeparators("", sep);
    assert "" + sep == sep;
    WordIsKept(front + sep, word);
    OnlySeparators(front, sep);
    if front != "" { HyphenatedStep(front[..|front| - 1], front[|front| - 1]); }
    assert front != "" ==> front == front[..|front| - 1] + [front[|front| - 1]];
    hide Hyphenated;
  }

  /** Trimming what the loop built gives a legal stem with the same letters and digits. */
  lemma StemOf(s: string)
    ensures Stem(Trim(Hyphenated(s))) && Letters(Trim(Hyphenated(s))) == Letters(s)
    ensures |Trim(Hyphenated(s))| <= |s|
  {
    HyphenatedShape(s);
    TrimLeftKeeps(Hyphenated(s));
    TrimRightKeeps(Hyphenated(s));
  }

  /** A legal stem is left alone, and nothing else is. */
  lemma {:induction false} HyphenatedFixed(s: string)
    requires (forall i | 0 <= i < |s| :: NameChar(s[i])) && SingleHyphens(s) && (s != "" ==> s[0] != '-')
    ensures Hyphenated(s) == s
    decreases |s|
  {
    if s != "" {
      var front := s[..|s| - 1];
      HyphenatedFixed(front);
      assert s == front + [s[|s| - 1]];
      if s[|s| - 1] == '-' { assert |s| > 1 && front[|front| - 1] == s[|s| - 2]; }
    }
  }

  lemma StemIff(s: string)
    ensures Trim(Hyphenated(s)) == s <==> Stem(s)
  {
    StemOf(s);
    if Stem(s) {
      HyphenatedFixed(s);
      TrimLeftKeeps(s);
      TrimRightKeeps(s);
    }
  }

  // ---------------------------------------------------------------- volumes

  predicate Legal(r: string) {
    0 < |r| <= 63 && (forall i | 0 <= i < |r| :: NameChar(r[i])) && Alnum(r[0]) && Alnum(r[|r| - 1])
  }

  lemma SuffixedIsLegal(base: string, digest: string)
    requires base != "" && |base| <= 30 && (forall i | 0 <= i < |base| :: NameChar(base[i])) && Alnum(base[0])
             && Digest(digest)
    ensures Legal(base + "-" + digest)
    ensures var r := base + "-" + digest; r[|r| - 32..] == digest && r[..|r| - 33] == base
  {
    var r := base + "-" + digest;
    forall i | 0 <= i < |r| ensures NameChar(r[i]) {
      if i > |base| { assert r[i] == digest[i - |base| - 1]; }
    }
    assert r[|r| - 1] == digest[31];
  }

  /** The stem of the name, or a placeholder, cut to leave room for the digest. */
  function Shortened(name: string): string {
    var stem := Trim(Hyphenated(LowerRunes(name)));
    if stem == "" then "volume" else if |stem| > 30 then TrimRight(stem[..30]) else stem
  }

  lemma ShortenedShape(name: string)
    ensures var base := Shortened(name);
            base != "" && |base| <= 30 && (forall i | 0 <= i < |base| :: NameChar(base[i])) && Alnum(base[0])
  {
    StemOf(LowerRunes(name));
    var stem := Trim(Hyphenated(LowerRunes(name)));
    if |stem| > 30 {
      FirstSurvives(stem, 30);
      TrimRightKeeps(stem[..30]);
    }
  }

  /** A short legal name keeps its stem, a name without letters and digits gets a placeholder, and a long one loses
      its end, cut at most one character below thirty. */
  lemma ShortenedIs(name: string)
    ensures Stem(LowerRunes(name)) && 0 < |name| <= 30 ==> Shortened(name) == LowerRunes(name)
    ensures Letters(LowerRunes(name)) == "" ==> Shortened(name) == "volume"
    ensures var stem := Trim(Hyphenated(LowerRunes(name)));
            stem != "" ==> Shortened(name) <= stem && (|stem| <= 30 ==> Shortened(name) == stem)
                           && (|stem| > 30 ==> |Shortened(name)| >= 29)
  {
    StemOf(LowerRunes(name));
    StemIff(LowerRunes(name));
    var stem := Trim(Hyphenated(LowerRunes(name)));
    if stem != "" { LettersNonEmpty(stem); }
    if |stem| > 30 { CutLosesOne(stem, 30); }
  }

  lemma CutLosesOne(s: string, n: nat)
    requires Stem(s) && 1 < n <= |s|
    ensures TrimRight(s[..n]) <= s && |TrimRight(s[..n])| >= n - 1
  {
    if EndsInHyphen(s[..n]) {
      assert s[n - 1] == '-' && s[n - 2] != '-';
      assert s[..n][..n - 1] == s[..n - 1] && !EndsInHyphen(s[..n - 1]);
    }
  }

  method BuildStem(lower: string) returns (b: string)
    ensures b == Hyphenated(lower)
  {
    b := "";
    var lastDash := false;
    assert lower[..|lower|] == lower;
    hide Hyphenated;
    assert Hyphenated(lower[..0]) == "" by { HyphenatedShape(""); }
    for i := 0 to |lower|
      invariant b == Hyphenated(lower[..i]) && lastDash == EndsInHyphen(b)
    {
      var c := lower[i];
      HyphenatedStep(lower[..i], c);
      assert lower[..i + 1] == lower[..i] + [c];
      if Alnum(c) {
        b := b + [c];
        lastDash := false;
      } else if !lastDash && |b| > 0 {
        b := b + ['-'];
        lastDash := true;
      }
    }
  }

  method VolumeResourceName(name: string, digest: string) returns (r: string)
    requires Digest(digest)
    ensures Legal(r)
    ensures r == Shortened(name) + "-" + digest
    ensures 34 <= |r| <= 63 && r[0] != '-' && r[|r| - 1] != '-'
    ensures forall c <- r :: 'a' <= c <= 'z' || '0' <= c <= '9' || c == '-'
  {
    assert digest[31] != '-';
    ShortenedShape(name);
    SuffixedIsLegal(Shortened(name), digest);
    hide Hyphenated, TrimRight, Trim, LowerRunes, Legal;
    var b := BuildStem(LowerRunes(name));
    var base := Trim(b);
    if base == "" {
      base := "volume";
    }
    var suffix := "-" + digest;
    if |base| + |suffix| > 63 {
      base := TrimRight(base[..63 - |suffix|]);
    }
    assert base == Shortened(name);
    assert base + suffix == base + "-" + digest;
    r := base + suffix;
  }

  /** Names with different digests never collide, whatever their stems. */
  lemma VolumeNamesDiffer(a: string, b: string, da: string, db: string)
    requires Digest(da) && Digest(db) && Shortened(a) + "-" + da == Shortened(b) + "-" + db
    ensures da == db && Shortened(a) == Shortened(b)
  {
    ShortenedShape(a);
    ShortenedShape(b);
    SuffixedIsLegal(Shortened(a), da);
    SuffixedIsLegal(Shortened(b), db);
  }

  lemma FirstSurvives(s: string, n: nat)
    requires Stem(s) && 0 < n <= |s|
    ensures TrimRight(s[..n]) != ""
  {
    TrimRightKeeps(s[..n]);
    LettersNonEmpty(s[..n]);
  }

  lemma {:induction false} LettersNonEmpty(s: string)
    requires s != "" && Alnum(s[0])
    ensures Letters(s) != ""
    decreases |s|
  {
    if |s| > 1 { LettersNonEmpty(s[..|s| - 1]); }
  }

  // ---------------------------------------------------------------- buckets

  function WithoutPeriods(s: string): string
    decreases |s|
  {
    if s == "" then ""
    else if s[|s| - 1] == '.' then WithoutPeriods(s[..|s| - 1])
    else WithoutPeriods(s[..|s| - 1]) + [s[|s| - 1]]
  }

  function Sanitized(input: string): string {
    Trim(Hyphenated(WithoutPeriods(LowerRunes(input))))
  }

  method Sanitize(input: string) returns (r: string)
    ensures r == Sanitized(input)
  {
    var b := "";
    var prevHyphen := false;
    var lower := LowerRunes(input);
    assert lower[..|lower|] == lower;
    for i := 0 to |lower|
      invariant b == Hyphenated(WithoutPeriods(lower[..i])) && prevHyphen == EndsInHyphen(b)
    {
      var c := lower[i];
      assert lower[..i + 1][..i] == lower[..i];
      if c == '.' { continue; }
      HyphenatedStep(WithoutPeriods(lower[..i]), c);
      if Alnum(c) {
        b := b + [c];
        prevHyphen := false;
      } else if !prevHyphen && |b| > 0 {
        b := b + ['-'];
        prevHyphen := true;
      }
    }
    r := Trim(b);
  }

  lemma {:induction false} PeriodsHaveNoLetters(s: string)
    ensures Letters(WithoutPeriods(s)) == Letters(s) && '.' !in WithoutPeriods(s)
    ensures '.' !in s ==> WithoutPeriods(s) == s
    decreases |s|
  {
    if s != "" {
      var front, c := s[..|s| - 1], s[|s| - 1];
      PeriodsHaveNoLetters(front);
      if c != '.' { LettersStep(WithoutPeriods(front), c); }
      assert s == front + [c];
    }
  }

  /** Periods just disappear. */
  lemma {:induction false} PeriodsDisappear(a: string, b: string)
    ensures WithoutPeriods(a + "." + b) == WithoutPeriods(a + b)
    decreases |b|
  {
    if b == "" {
      assert (a + "." + b)[..|a|] == a && a + b == a;
    } else {
      PeriodsDisappear(a, b[..|b| - 1]);
      assert (a + "." + b)[..|a| + |b|] == a + "." + b[..|b| - 1];
      assert (a + b)[..|a| + |b| - 1] == a + b[..|b| - 1];
    }
  }

  /** Sanitizing keeps exactly the letters and digits, in order, and is the identity exactly on legal stems. */
  lemma SanitizedIsStem(input: string)
    ensures Stem(Sanitized(input)) && Letters(Sanitized(input)) == Letters(LowerRunes(input))
    ensures Sanitized(input) == LowerRunes(input) <==> Stem(LowerRunes(input))
    ensures Sanitized(Sanitized(input)) == Sanitized(input)
  {
    var lower := LowerRunes(input);
    PeriodsHaveNoLetters(lower);
    StemOf(WithoutPeriods(lower));
    if Stem(lower) {
      assert '.' !in lower;
      StemIff(lower);
    }
    var r := Sanitized(input);
    assert LowerRunes(r) == r && '.' !in r;
    PeriodsHaveNoLetters(r);
    StemIff(r);
  }

  predicate ValidName(name: string) {
    3 <= |name| <= 63 && (forall i | 0 <= i < |name| :: NameChar(name[i])) && name[0] != '-' && name[|name| - 1] != '-'
  }

  lemma ValidNameIff(name: string)
    ensures ValidName(name)
            <==> 3 <= |name| <= 63 && name[0] != '-' && name[|name| - 1] != '-'
                 && forall c <- name :: 'a' <= c <= 'z' || '0' <= c <= '9' || c == '-'
  {
    assert forall i | 0 <= i < |name| :: name[i] in name;
  }

  method ValidateBucketName(name: string) returns (ok: bool)
    ensures ok == ValidName(name)
  {
    if |name| < 3 || |name| > 63 || '.' in name { return false; }
    for i := 0 to |name|
      invariant forall j | 0 <= j < i :: NameChar(name[j]) && ((j == 0 || j == |name| - 1) ==> name[j] != '-')
    {
      if !NameChar(name[i]) || ((i == 0 || i == |name| - 1) && name[i] == '-') { return false; }
    }
    return true;
  }

  /** Sanitizing changed the input, or the name is too long: the digest goes at the end. */
  predicate Digested(prefix: string, input: string) {
    Sanitized(input) != LowerRunes(input) || '.' in input || |prefix + Sanitized(input)| > 63
  }

  function WithDigest(combined: string, digest: string): string {
    TrimRight(if |combined| > 30 then combined[..30] else combined) + "-" + digest
  }

  function Combined(prefix: string, input: string, digest: string): string {
    var combined := prefix + Sanitized(input);
    Trim(if Digested(prefix, input) then WithDigest(combined, digest) else combined)
  }

  method BucketName(prefix: string, input: string, digest: string) returns (r: Result<string>)
    requires Digest(digest)
    ensures r == if ValidName(Combined(prefix, input, digest)) then Ok(Combined(prefix, input, digest)) else Err
  {
    var sanitized := Sanitize(input);
    var combined := prefix + sanitized;
    var changed := sanitized != LowerRunes(input) || '.' in input;
    if changed || |combined| > 63 {
      var keep := 63 - (1 + |digest|);
      var base := combined;
      if |base| > keep {
        base := base[..keep];
      }
      combined := TrimRight(base) + ("-" + digest);
      assert combined == TrimRight(base) + "-" + digest;
    }
    combined := Trim(combined);
    if |combined| < 3 || |combined| > 63 { return Err; }
    var valid := ValidateBucketName(combined);
    return if valid then Ok(combined) else Err;
  }

  lemma TrimShape(s: string)
    ensures var t := Trim(s); |t| <= |s| && (t != "" ==> t[0] != '-' && t[|t| - 1] != '-')
    ensures (forall i | 0 <= i < |s| :: NameChar(s[i])) ==> forall i | 0 <= i < |Trim(s)| :: NameChar(Trim(s)[i])
  {
    TrimLeftKeeps(s);
    var k :| 0 <= k <= |s| && TrimLeft(s) == s[k..];
    TrimRightKeeps(s[k..]);
  }

  /** A name that ends in the digest keeps it through trimming. */
  lemma {:induction false} TrimKeepsDigest(base: string, digest: string)
    requires Digest(digest)
    ensures var t := Trim(base + "-" + digest); |t| >= 32 && t[|t| - 32..] == digest
  {
    var s := base + "-" + digest;
    TrimLeftKeeps(s);
    var k :| 0 <= k <= |s| && TrimLeft(s) == s[k..];
    assert s[|base| + 1] == digest[0] && s[|s| - 1] == digest[31];
    if k > |base| + 1 { LeftStops(s, |base| + 1); }
    TrimRightKeeps(s[k..]);
  }

  lemma {:induction false} LeftStops(s: string, i: nat)
    requires i < |s| && s[i] != '-'
    ensures |TrimLeft(s)| >= |s| - i
  {
    if s[0] == '-' { LeftStops(s[1..], i - 1); }
  }

  lemma AppendedChars(base: string, digest: string)
    requires Digest(digest) && forall i | 0 <= i < |base| :: NameChar(base[i])
    ensures var s := base + "-" + digest; forall i | 0 <= i < |s| :: NameChar(s[i])
  {
    var s := base + "-" + digest;
    forall i | 0 <= i < |s| ensures NameChar(s[i]) {
      if i > |base| { assert s[i] == digest[i - |base| - 1]; }
    }
  }

  lemma DigestedIsValid(combined: string, digest: string)
    requires Digest(digest) && forall i | 0 <= i < |combined| :: NameChar(combined[i])
    ensures ValidName(Trim(WithDigest(combined, digest)))
  {
    var cut := if |combined| > 30 then combined[..30] else combined;
    TrimRightKeeps(cut);
    hide TrimRight, Trim;
    AppendedChars(TrimRight(cut), digest);
    TrimShape(TrimRight(cut) + "-" + digest);
    TrimKeepsDigest(TrimRight(cut), digest);
  }

  /** Bucket names that end in a digest never collide for inputs with different digests. */
  lemma DigestedNamesDiffer(prefix: string, a: string, b: string, da: string, db: string)
    requires Digest(da) && Digest(db) && Digested(prefix, a) && Digested(prefix, b)
    requires Combined(prefix, a, da) == Combined(prefix, b, db)
    ensures da == db
  {
    var x, y := prefix + Sanitized(a), prefix + Sanitized(b);
    TrimKeepsDigest(TrimRight(if |x| > 30 then x[..30] else x), da);
    TrimKeepsDigest(TrimRight(if |y| > 30 then y[..30] else y), db);
    hide Trim, TrimRight, Sanitized, Digested;
  }

  /** With a legal prefix a bucket name can be derived from every input, except where the input needed no
      change and what is left of prefix and input is under three characters. */
  lemma BucketNameFailsIff(prefix: string, input: string, digest: string)
    requires Digest(digest) && forall i | 0 <= i < |prefix| :: NameChar(prefix[i])
    ensures !ValidName(Combined(prefix, input, digest))
            <==> !Digested(prefix, input) && |Trim(prefix + Sanitized(input))| < 3
  {
    SanitizedIsStem(input);
    hide Sanitized;
    var combined := prefix + Sanitized(input);
    hide Trim, TrimRight, WithDigest;
    TrimShape(combined);
    if Digested(prefix, input) { DigestedIsValid(combined, digest); }
  }

  /** Deriving a name from a derived name changes nothing, unless it contains a double hyphen. */
  lemma BucketNameIsStable(name: string, digest: string)
    requires ValidName(name) && SingleHyphens(name) && Digest(digest)
    ensures Combined("", name, digest) == name
  {
    NeedsNoDigest(name);
    TrimFixed(name);
    hide Sanitized, LowerRunes, Trim, SingleHyphens, WithDigest, Digested, NameChar;
  }

  lemma NeedsNoDigest(name: string)
    requires ValidName(name) && SingleHyphens(name)
    ensures !Digested("", name) && "" + Sanitized(name) == name
  {
    LegalNameIsItsOwnStem(name);
    hide Sanitized, LowerRunes;
  }

  lemma LegalNameIsItsOwnStem(name: string)
    requires ValidName(name) && SingleHyphens(name)
    ensures Sanitized(name) == name && LowerRunes(name) == name && '.' !in name
  {
    assert LowerRunes(name) == name && Stem(name) && '.' !in name;
    SanitizedIsStem(name);
  }

  lemma TrimFixed(s: string)
    requires s == "" || (s[0] != '-' && s[|s| - 1] != '-')
    ensures Trim(s) == s
  {
    TrimLeftKeeps(s);
    TrimRightKeeps(s);
  }
}
