/** The opaque bucket and account identifiers: printing and parsing.

    A string is a sequence of bytes, one character each. */
module Identifiers {
  import opened Text
  import opened Wrappers

  predicate IsBytes(s: string) {
    forall i | 0 <= i < |s| :: s[i] < '\U{0100}'
  }

  // ---------------------------------------------------------------- query escaping

  predicate Unreserved(c: char) {
    'a' <= c <= 'z' || 'A' <= c <= 'Z' || '0' <= c <= '9' || c == '-' || c == '_' || c == '.' || c == '~'
  }

  function HexDigit(n: nat): char
    requires n < 16
  {
    if n < 10 then '0' + n as char else 'A' + (n - 10) as char
  }

  function HexValue(c: char): (n: nat)
    requires IsHex(c)
    ensures n < 16
  {
    if c <= '9' then (c - '0') as int else if c <= 'F' then (c - 'A') as int + 10 else (c - 'a') as int + 10
  }

  function EscapeByte(c: char): string
    requires c < '\U{0100}'
  {
    if Unreserved(c) then [c] else if c == ' ' then "+"
    else ['%', HexDigit(c as int / 16), HexDigit(c as int % 16)]
  }

  function QueryEscape(s: string): string
    requires IsBytes(s)
  {
    if s == "" then "" else EscapeByte(s[0]) + QueryEscape(s[1..])
  }

  /** Fails on a percent sign that two hexadecimal digits do not follow. */
  function QueryUnescape(s: string): Result<string> {
    if s == "" then Ok("")
    else if s[0] == '%' then
      if |s| < 3 || !IsHex(s[1]) || !IsHex(s[2]) then Err
      else Prepend((HexValue(s[1]) * 16 + HexValue(s[2])) as char, QueryUnescape(s[3..]))
    else Prepend(if s[0] == '+' then ' ' else s[0], QueryUnescape(s[1..]))
  }

  function Prepend(c: char, r: Result<string>): Result<string> {
    if r.Ok? then Ok([c] + r.value) else Err
  }

  lemma HexRoundTrip(n: nat)
    requires n < 16
    ensures IsHex(HexDigit(n)) && HexValue(HexDigit(n)) == n
  {
  }

  /** Both cases of the sixteen digits are read, each as its own value. */
  lemma HexDigitsDecode(c: char)
    ensures IsHex(c) <==> c in "0123456789ABCDEF" || c in "abcdef"
    ensures c in "0123456789ABCDEF" ==> "0123456789ABCDEF"[HexValue(c)] == c
    ensures c in "abcdef" ==> HexValue(c) >= 10 && "abcdef"[HexValue(c) - 10] == c
  {
    if '0' <= c <= '9' { assert "0123456789ABCDEF"[(c - '0') as int] == c; }
    if 'A' <= c <= 'F' { assert "0123456789ABCDEF"[(c - 'A') as int + 10] == c; }
    if 'a' <= c <= 'f' { assert "abcdef"[(c - 'a') as int] == c; }
  }

  lemma EscapeByteRoundTrip(c: char, rest: string)
    requires c < '\U{0100}'
    ensures QueryUnescape(EscapeByte(c) + rest) == Prepend(c, QueryUnescape(rest))
    ensures ':' !in EscapeByte(c)
  {
    HexRoundTrip(c as int / 16);
    HexRoundTrip(c as int % 16);
    var e := EscapeByte(c);
    assert (e + rest)[|e|..] == rest;
  }

  lemma {:induction false} EscapeRoundTrip(s: string)
    requires IsBytes(s)
    ensures QueryUnescape(QueryEscape(s)) == Ok(s)
    ensures ':' !in QueryEscape(s) && (QueryEscape(s) == "" <==> s == "")
  {
    if s != "" {
      EscapeByteRoundTrip(s[0], QueryEscape(s[1..]));
      EscapeRoundTrip(s[1..]);
      assert s == [s[0]] + s[1..];
      hide EscapeByte, QueryUnescape;
      assert QueryEscape(s) == EscapeByte(s[0]) + QueryEscape(s[1..]);
    }
  }

  /** Letters, digits and four signs stand for themselves, and nothing else but a plus sign, a percent sign and
      capital hexadecimal digits comes of the rest. */
  lemma {:induction false} EscapedAlphabet(s: string)
    requires IsBytes(s)
    ensures (forall c <- s :: 'a' <= c <= 'z' || 'A' <= c <= 'Z' || '0' <= c <= '9' || c in "-_.~") ==>
              QueryEscape(s) == s
    ensures forall c <- QueryEscape(s) :: 'a' <= c <= 'z' || 'A' <= c <= 'Z' || '0' <= c <= '9' || c in "-_.~+%"
    ensures QueryEscape(" ") == "+" && QueryEscape("/") == "%2F" && QueryEscape(":") == "%3A"
  {
    if s != "" {
      EscapedAlphabet(s[1..]);
      assert s == [s[0]] + s[1..];
      assert s[0] in s && forall c <- s[1..] :: c in s;
      EscapedByte(s[0]);
      hide EscapeByte, Unreserved;
      assert QueryEscape(s) == EscapeByte(s[0]) + QueryEscape(s[1..]);
    } else {
      EscapedSigns();
    }
  }

  lemma EscapedByte(c: char)
    requires c < '\U{0100}'
    ensures 'a' <= c <= 'z' || 'A' <= c <= 'Z' || '0' <= c <= '9' || c in "-_.~" ==> EscapeByte(c) == [c]
    ensures forall x <- EscapeByte(c) :: 'a' <= x <= 'z' || 'A' <= x <= 'Z' || '0' <= x <= '9' || x in "-_.~+%"
  {
  }

  lemma EscapedSigns()
    ensures QueryEscape(" ") == "+" && QueryEscape("/") == "%2F" && QueryEscape(":") == "%3A"
  {
    assert QueryEscape(" ") == EscapeByte(' ') + QueryEscape("");
    assert QueryEscape("/") == EscapeByte('/') + QueryEscape("");
    assert QueryEscape(":") == EscapeByte(':') + QueryEscape("");
  }

  lemma {:induction false} UnescapeNonEmpty(s: string)
    ensures QueryUnescape(s).Ok? ==> (QueryUnescape(s).value == "" <==> s == "")
  {
  }

  // ---------------------------------------------------------------- colon-separated fields

  function Join(fields: seq<string>): string
    requires fields != []
  {
    if |fields| == 1 then fields[0] else fields[0] + ":" + Join(fields[1..])
  }

  /** At most n fields; the last one keeps its colons. */
  function SplitN(s: string, n: nat): (r: seq<string>)
    requires n > 0
    ensures 1 <= |r| <= n
    ensures forall i | 0 <= i < |r| - 1 :: ':' !in r[i]
    ensures |r| < n ==> ':' !in r[|r| - 1]
  {
    if n == 1 || !Has(s, ':') then [s] else [Before(s, ':')] + SplitN(After(s, ':'), n - 1)
  }

  lemma CutField(field: string, rest: string)
    requires ':' !in field
    ensures var s := field + ":" + rest; Has(s, ':') && Before(s, ':') == field && After(s, ':') == rest
  {
    CutJoined(field, rest, ':');
    assert !Has(field, ':');
  }

  lemma SplitOne(field: string, rest: string, n: nat)
    requires ':' !in field && n > 1
    ensures SplitN(field + ":" + rest, n) == [field] + SplitN(rest, n - 1)
  {
    CutField(field, rest);
    hide Has, Before, After;
  }

  lemma {:induction false} SplitJoinedFields(fields: seq<string>)
    requires fields != [] && forall i | 0 <= i < |fields| - 1 :: ':' !in fields[i]
    ensures SplitN(Join(fields), |fields|) == fields
  {
    if |fields| > 1 {
      SplitJoinedFields(fields[1..]);
      SplitOne(fields[0], Join(fields[1..]), |fields|);
      assert Join(fields) == fields[0] + ":" + Join(fields[1..]);
      hide SplitN, Join;
      assert fields == [fields[0]] + fields[1..];
    }
  }

  // ---------------------------------------------------------------- bucket identifiers

  datatype BucketId = BucketId(
    endpoint: string, restPort: string, bucketName: string, rootPath: string, rootFileId: string, managed: bool)

  predicate BucketBytes(id: BucketId) {
    && IsBytes(id.endpoint) && IsBytes(id.restPort) && IsBytes(id.bucketName)
    && IsBytes(id.rootPath) && IsBytes(id.rootFileId)
  }

  function BucketFields(id: BucketId): seq<string>
    requires BucketBytes(id)
  {
    if id.rootPath != "" && id.rootFileId != "" then
      if id.managed then
        ["q3", "qumulo", QueryEscape(id.endpoint), id.restPort, QueryEscape(id.bucketName),
         QueryEscape(id.rootPath), QueryEscape(id.rootFileId), "managed"]
      else
        ["q2", "qumulo", QueryEscape(id.endpoint), id.restPort, QueryEscape(id.bucketName),
         QueryEscape(id.rootPath), QueryEscape(id.rootFileId)]
    else ["q1", "qumulo", QueryEscape(id.endpoint), id.restPort, id.bucketName]
  }

  function BucketIdString(id: BucketId): string
    requires BucketBytes(id)
  {
    Join(BucketFields(id))
  }

  /** The identity-carrying formats, once split. */
  function ParseRooted(parts: seq<string>, managed: bool): Result<BucketId>
    requires |parts| >= 7
  {
    if parts[2] == "" || parts[3] == "" || parts[4] == "" || parts[5] == "" || parts[6] == "" then Err
    else
      var endpoint, name := QueryUnescape(parts[2]), QueryUnescape(parts[4]);
      var root, fileId := QueryUnescape(parts[5]), QueryUnescape(parts[6]);
      if endpoint.Err? || name.Err? || root.Err? || fileId.Err? || !("/" <= root.value) then Err
      else Ok(BucketId(endpoint.value, parts[3], name.value, root.value, fileId.value, managed))
  }

  function ParseManaged(parts: seq<string>): Result<BucketId> {
    if |parts| != 8 || parts[7] != "managed" then Err else ParseRooted(parts, true)
  }

  function ParseRetained(parts: seq<string>): Result<BucketId> {
    if |parts| != 7 then Err else ParseRooted(parts, false)
  }

  function ParseNamed(parts: seq<string>): Result<BucketId> {
    if |parts| != 5 || parts[0] != "q1" || parts[1] != "qumulo" || parts[2] == "" || parts[3] == ""
        || parts[4] == "" then Err
    else if QueryUnescape(parts[2]).Err? then Err
    else Ok(BucketId(QueryUnescape(parts[2]).value, parts[3], parts[4], "", "", false))
  }

  function ParseBucketId(raw: string): Result<BucketId> {
    if "q3:qumulo:" <= raw then ParseManaged(SplitN(raw, 8))
    else if "q2:qumulo:" <= raw then ParseRetained(SplitN(raw, 7))
    else ParseNamed(SplitN(raw, 5))
  }

  /** The identifiers that survive printing: no empty field, a port without colons, a root that is
      absolute, and root path, file id and ownership only together. */
  predicate WellFormedBucket(id: BucketId) {
    && id.endpoint != "" && id.restPort != "" && ':' !in id.restPort && id.bucketName != ""
    && ((id.rootPath == "" && id.rootFileId == "" && !id.managed) || ("/" <= id.rootPath && id.rootFileId != ""))
  }

  /** Half a root identity is not printed: the identifier reads as one without. */
  lemma HalfRootIsDropped(id: BucketId)
    requires BucketBytes(id) && (id.rootPath == "" || id.rootFileId == "")
    ensures BucketIdString(id) == BucketIdString(BucketId(id.endpoint, id.restPort, id.bucketName, "", "", false))
  {
  }

  // Printed identifiers show their version and split back into their fields.

  predicate ColonFree(field: string) {
    ':' !in field
  }

  predicate Printable(fields: seq<string>) {
    |fields| >= 3 && |fields[0]| == 2 && fields[1] == "qumulo" && forall i | 0 <= i < |fields| - 1 ::
        ColonFree(fields[i])
  }

  lemma PrintedVersion(fields: seq<string>, version: string)
    requires Printable(fields) && |version| == 2
    ensures version + ":qumulo:" <= Join(fields) <==> version == fields[0]
  {
    var rest := Join(fields[1..][1..]);
    assert Join(fields) == fields[0] + ":" + (fields[1] + ":" + rest);
    assert ":" + ("qumulo" + ":" + rest) == ":qumulo:" + rest;
    PrefixOf(version, fields[0], ":qumulo:", rest, Join(fields));
  }

  lemma PrefixOf(a: string, b: string, mid: string, rest: string, raw: string)
    requires |a| == |b| && raw == b + (mid + rest)
    ensures a + mid <= raw <==> a == b
  {
    assert raw[..|a|] == b && raw[|a|..] == mid + rest;
    if a + mid <= raw { assert (a + mid)[..|a|] == raw[..|a|]; }
  }

  /** Which of the three formats a printed identifier is recognised as, and what it splits into. */
  lemma Printed(fields: seq<string>)
    requires Printable(fields)
    ensures SplitN(Join(fields), |fields|) == fields
    ensures "q3:qumulo:" <= Join(fields) <==> fields[0] == "q3"
    ensures "q2:qumulo:" <= Join(fields) <==> fields[0] == "q2"
  {
    SplitJoinedFields(fields);
    PrintedVersion(fields, "q3");
    PrintedVersion(fields, "q2");
    hide Join, SplitN, ColonFree;
    Prefixes();
  }

  lemma Prefixes()
    ensures "q3" + ":qumulo:" == "q3:qumulo:" && "q2" + ":qumulo:" == "q2:qumulo:"
  {
  }

  lemma FixedFields()
    ensures ColonFree("q1") && ColonFree("q2") && ColonFree("q3") && ColonFree("qumulo")
    ensures "q1" != "q2" && "q1" != "q3" && "q2" != "q3"
  {
  }

  lemma EscapedField(s: string)
    requires IsBytes(s)
    ensures ColonFree(QueryEscape(s)) && QueryUnescape(QueryEscape(s)) == Ok(s) && (QueryEscape(s) == "" <==> s == "")
  {
    EscapeRoundTrip(s);
  }

  lemma RootedPrintable(id: BucketId)
    requires BucketBytes(id) && id.rootPath != "" && id.rootFileId != "" && ColonFree(id.restPort)
    ensures Printable(BucketFields(id))
  {
    FixedFields();
    EscapedField(id.endpoint);
    EscapedField(id.bucketName);
    EscapedField(id.rootPath);
    EscapedField(id.rootFileId);
    hide QueryEscape, QueryUnescape, ColonFree, IsBytes;
  }

  lemma NamedPrintable(id: BucketId)
    requires BucketBytes(id) && id.rootPath == "" && ColonFree(id.restPort)
    ensures Printable(BucketFields(id))
  {
    FixedFields();
    EscapedField(id.endpoint);
    hide QueryEscape, QueryUnescape, ColonFree, IsBytes;
  }

  lemma RootedFieldsParse(id: BucketId)
    requires BucketBytes(id) && WellFormedBucket(id) && id.rootPath != ""
    ensures var f := BucketFields(id); |f| >= 7 && ParseRooted(f, id.managed) == Ok(id)
  {
    EscapedField(id.endpoint);
    EscapedField(id.bucketName);
    EscapedField(id.rootPath);
    EscapedField(id.rootFileId);
    hide QueryEscape, QueryUnescape, ColonFree, IsBytes;
  }

  lemma NamedFieldsParse(id: BucketId)
    requires BucketBytes(id) && WellFormedBucket(id) && id.rootPath == ""
    ensures ParseNamed(BucketFields(id)) == Ok(id)
  {
    EscapedField(id.endpoint);
    hide QueryEscape, QueryUnescape, ColonFree, IsBytes;
  }

  lemma BucketRoundTrip(id: BucketId)
    requires BucketBytes(id) && WellFormedBucket(id)
    ensures ParseBucketId(BucketIdString(id)) == Ok(id)
  {
    if id.rootPath == "" {
      NamedPrintable(id);
      NamedFieldsParse(id);
    } else {
      RootedPrintable(id);
      RootedFieldsParse(id);
    }
    Printed(BucketFields(id));
    FixedFields();
    hide QueryEscape, Printable, SplitN, Join, ParseNamed, ParseRooted;
  }

  /** Parsing yields only well-formed identifiers; a managed one carries an absolute root and a file id. */
  lemma ParsedBucketIsWellFormed(raw: string)
    requires ParseBucketId(raw).Ok?
    ensures WellFormedBucket(ParseBucketId(raw).value)
    ensures var id := ParseBucketId(raw).value; id.managed ==> "/" <= id.rootPath && id.rootFileId != ""
  {
    forall s: string { UnescapeNonEmpty(s); }
    hide QueryUnescape;
  }

  lemma {:induction false} JoinOfSplit(s: string, n: nat)
    requires n > 0
    ensures Join(SplitN(s, n)) == s
    decreases n
  {
    if n > 1 && Has(s, ':') {
      JoinOfSplit(After(s, ':'), n - 1);
      var rest := SplitN(After(s, ':'), n - 1);
      assert SplitN(s, n) == [Before(s, ':')] + rest && ([Before(s, ':')] + rest)[1..] == rest;
      assert s == Before(s, ':') + ":" + After(s, ':');
      hide SplitN;
    }
  }

  lemma {:induction false} JoinEnds(fields: seq<string>)
    requires |fields| > 1
    ensures var s, last := Join(fields), ":" + fields[|fields| - 1]; |last| <= |s| && s[|s| - |last|..] == last
  {
    if |fields| > 2 { JoinEnds(fields[1..]); }
  }

  lemma StartsWithFields(raw: string, n: nat)
    requires n > 2 && |SplitN(raw, n)| > 2
    ensures SplitN(raw, n)[0] + ":" + SplitN(raw, n)[1] + ":" <= raw
  {
    var f := SplitN(raw, n);
    JoinOfSplit(raw, n);
    hide SplitN;
    assert Join(f) == f[0] + ":" + Join(f[1..]) && Join(f[1..]) == f[1] + ":" + Join(f[1..][1..]);
    hide Join;
  }

  lemma ManagedEnds(raw: string, fields: seq<string>)
    requires fields != [] && raw == Join(fields) && ParseManaged(fields).Ok?
    ensures |raw| >= 8 && raw[|raw| - 8..] == ":managed"
  {
    JoinEnds(fields);
    hide Join, ParseRooted;
    assert ":" + "managed" == ":managed";
  }

  lemma FirstVersion(raw: string)
    requires |SplitN(raw, 5)| == 5 && SplitN(raw, 5)[0] == "q1" && SplitN(raw, 5)[1] == "qumulo"
    ensures "q1:qumulo:" <= raw
  {
    StartsWithFields(raw, 5);
    hide SplitN;
    assert "q1" + ":" + "qumulo" + ":" == "q1:qumulo:";
  }

  lemma BucketParts(parts: seq<string>)
    ensures ParseManaged(parts).Ok? ==> ParseManaged(parts).value.managed && ParseManaged(parts).value.rootPath != ""
    ensures ParseRetained(parts).Ok? ==>
              !ParseRetained(parts).value.managed && ParseRetained(parts).value.rootPath != ""
    ensures ParseNamed(parts).Ok? ==>
              && |parts| == 5 && parts[0] == "q1" && parts[1] == "qumulo"
              && !ParseNamed(parts).value.managed && ParseNamed(parts).value.rootPath == ""
  {
    hide QueryUnescape;
  }

  /** An identifier is accepted only under one of the three versions: under the first without a root, and as
      managed only under the third one and with that word at its end. */
  lemma AcceptedBuckets(raw: string)
    requires ParseBucketId(raw).Ok?
    ensures "q1:qumulo:" <= raw || "q2:qumulo:" <= raw || "q3:qumulo:" <= raw
    ensures var id := ParseBucketId(raw).value;
            && (id.managed <==> "q3:qumulo:" <= raw)
            && (id.managed ==> |raw| >= 8 && raw[|raw| - 8..] == ":managed")
            && (id.rootPath == "" <==> !("q2:qumulo:" <= raw || "q3:qumulo:" <= raw))
  {
    BucketParts(SplitN(raw, 8));
    BucketParts(SplitN(raw, 7));
    BucketParts(SplitN(raw, 5));
    hide SplitN, ParseManaged, ParseRetained, ParseNamed;
    if "q3:qumulo:" <= raw {
      JoinOfSplit(raw, 8);
      ManagedEnds(raw, SplitN(raw, 8));
    } else if !("q2:qumulo:" <= raw) { FirstVersion(raw); }
  }

  /** Printing and parsing gives the identifier back exactly when it is well formed. */
  lemma BucketRoundTripIff(id: BucketId)
    requires BucketBytes(id)
    ensures ParseBucketId(BucketIdString(id)) == Ok(id) <==> WellFormedBucket(id)
  {
    if WellFormedBucket(id) {
      BucketRoundTrip(id);
    }
    if ParseBucketId(BucketIdString(id)).Ok? { ParsedBucketIsWellFormed(BucketIdString(id)); }
  }

  /** Different well-formed identifiers never print alike. */
  lemma BucketStringsDiffer(a: BucketId, b: BucketId)
    requires BucketBytes(a) && BucketBytes(b) && WellFormedBucket(a) && WellFormedBucket(b)
    ensures BucketIdString(a) == BucketIdString(b) <==> a == b
  {
    BucketRoundTrip(a);
    BucketRoundTrip(b);
  }

  // ---------------------------------------------------------------- account identifiers

  datatype AccountId = AccountId(endpoint: string, username: string, keyPrefix: string, authId: string,
      restoreMode: string)

  predicate AccountBytes(id: AccountId) {
    && IsBytes(id.endpoint) && IsBytes(id.username) && IsBytes(id.keyPrefix) && IsBytes(id.authId)
    && IsBytes(id.restoreMode)
  }

  function AccountFields(id: AccountId): seq<string>
    requires AccountBytes(id)
  {
    if id.authId != "" && id.restoreMode != "" then
      ["q3", "qumulo", QueryEscape(id.endpoint), QueryEscape(id.username), QueryEscape(id.keyPrefix),
       QueryEscape(id.authId), QueryEscape(id.restoreMode)]
    else if id.authId != "" then
      ["q2", "qumulo", QueryEscape(id.endpoint), QueryEscape(id.username), QueryEscape(id.keyPrefix),
          QueryEscape(id.authId)]
    else ["q1", "qumulo", QueryEscape(id.endpoint), id.username, id.keyPrefix]
  }

  function AccountIdString(id: AccountId): string
    requires AccountBytes(id)
  {
    Join(AccountFields(id))
  }

  predicate ValidRestoreMode(mode: string) {
    |mode| == 4 && mode[0] == '0' && forall i | 0 < i < 4 :: '0' <= mode[i] <= '7'
  }

  function ParseRestoring(parts: seq<string>): Result<AccountId> {
    if |parts| != 7 || parts[2] == "" || parts[3] == "" || parts[5] == "" || parts[6] == "" then Err
    else
      var e, u, k := QueryUnescape(parts[2]), QueryUnescape(parts[3]), QueryUnescape(parts[4]);
      var a, m := QueryUnescape(parts[5]), QueryUnescape(parts[6]);
      if e.Err? || u.Err? || k.Err? || a.Err? || m.Err? || !ValidRestoreMode(m.value) then Err
      else Ok(AccountId(e.value, u.value, k.value, a.value, m.value))
  }

  function ParseIdentified(parts: seq<string>): Result<AccountId> {
    if |parts| != 6 || parts[2] == "" || parts[3] == "" || parts[5] == "" then Err
    else
      var e, u, k := QueryUnescape(parts[2]), QueryUnescape(parts[3]), QueryUnescape(parts[4]);
      var a := QueryUnescape(parts[5]);
      if e.Err? || u.Err? || k.Err? || a.Err? then Err
      else Ok(AccountId(e.value, u.value, k.value, a.value, ""))
  }

  function ParseUsername(parts: seq<string>): Result<AccountId> {
    if |parts| != 5 || parts[0] != "q1" || parts[1] != "qumulo" || parts[2] == "" || parts[3] == "" then Err
    else if QueryUnescape(parts[2]).Err? then Err
    else Ok(AccountId(QueryUnescape(parts[2]).value, parts[3], parts[4], "", ""))
  }

  function ParseAccountId(raw: string): Result<AccountId> {
    if "q3:qumulo:" <= raw then ParseRestoring(SplitN(raw, 7))
    else if "q2:qumulo:" <= raw then ParseIdentified(SplitN(raw, 6))
    else ParseUsername(SplitN(raw, 5))
  }

  predicate WellFormedAccount(id: AccountId) {
    && id.endpoint != "" && id.username != ""
    && if id.authId == "" then id.restoreMode == "" && ':' !in id.username
       else id.restoreMode == "" || ValidRestoreMode(id.restoreMode)
  }

  lemma RestoringPrintable(id: AccountId)
    requires AccountBytes(id) && id.authId != "" && id.restoreMode != ""
    ensures Printable(AccountFields(id))
  {
    FixedFields();
    EscapedField(id.endpoint);
    EscapedField(id.username);
    EscapedField(id.keyPrefix);
    EscapedField(id.authId);
    hide QueryEscape, QueryUnescape, ColonFree, IsBytes;
  }

  lemma IdentifiedPrintable(id: AccountId)
    requires AccountBytes(id) && id.authId != "" && id.restoreMode == ""
    ensures Printable(AccountFields(id))
  {
    FixedFields();
    EscapedField(id.endpoint);
    EscapedField(id.username);
    EscapedField(id.keyPrefix);
    hide QueryEscape, QueryUnescape, ColonFree, IsBytes;
  }

  lemma UsernamePrintable(id: AccountId)
    requires AccountBytes(id) && id.authId == "" && ColonFree(id.username)
    ensures Printable(AccountFields(id))
  {
    FixedFields();
    EscapedField(id.endpoint);
    hide QueryEscape, QueryUnescape, ColonFree, IsBytes;
  }

  lemma RestoringFieldsParse(id: AccountId)
    requires AccountBytes(id) && WellFormedAccount(id) && id.restoreMode != ""
    ensures ParseRestoring(AccountFields(id)) == Ok(id)
  {
    EscapedField(id.endpoint);
    EscapedField(id.username);
    EscapedField(id.keyPrefix);
    EscapedField(id.authId);
    EscapedField(id.restoreMode);
    hide QueryEscape, QueryUnescape, ValidRestoreMode, ColonFree, IsBytes;
  }

  lemma IdentifiedFieldsParse(id: AccountId)
    requires AccountBytes(id) && WellFormedAccount(id) && id.authId != "" && id.restoreMode == ""
    ensures ParseIdentified(AccountFields(id)) == Ok(id)
  {
    EscapedField(id.endpoint);
    EscapedField(id.username);
    EscapedField(id.keyPrefix);
    EscapedField(id.authId);
    hide QueryEscape, QueryUnescape, ColonFree, IsBytes;
  }

  lemma UsernameFieldsParse(id: AccountId)
    requires AccountBytes(id) && WellFormedAccount(id) && id.authId == ""
    ensures ParseUsername(AccountFields(id)) == Ok(id)
  {
    EscapedField(id.endpoint);
    hide QueryEscape, QueryUnescape, ColonFree, IsBytes;
  }

  lemma AccountRoundTrip(id: AccountId)
    requires AccountBytes(id) && WellFormedAccount(id)
    ensures ParseAccountId(AccountIdString(id)) == Ok(id)
  {
    if id.authId == "" {
      UsernamePrintable(id);
      UsernameFieldsParse(id);
    } else if id.restoreMode == "" {
      IdentifiedPrintable(id);
      IdentifiedFieldsParse(id);
    } else {
      RestoringPrintable(id);
      RestoringFieldsParse(id);
    }
    Printed(AccountFields(id));
    FixedFields();
    hide QueryEscape, Printable, SplitN, Join, ParseUsername, ParseRestoring, ParseIdentified;
  }

  lemma ParsedAccountIsWellFormed(raw: string)
    requires ParseAccountId(raw).Ok?
    ensures WellFormedAccount(ParseAccountId(raw).value)
  {
    forall s: string { UnescapeNonEmpty(s); }
    hide QueryUnescape;
  }

  /** Printing and parsing gives the identifier back exactly when it is well formed. */
  lemma AccountRoundTripIff(id: AccountId)
    requires AccountBytes(id)
    ensures ParseAccountId(AccountIdString(id)) == Ok(id) <==> WellFormedAccount(id)
  {
    if WellFormedAccount(id) { AccountRoundTrip(id); }
    if ParseAccountId(AccountIdString(id)).Ok? { ParsedAccountIsWellFormed(AccountIdString(id)); }
  }

  lemma AccountStringsDiffer(a: AccountId, b: AccountId)
    requires AccountBytes(a) && AccountBytes(b) && WellFormedAccount(a) && WellFormedAccount(b)
    ensures AccountIdString(a) == AccountIdString(b) <==> a == b
  {
    AccountRoundTrip(a);
    AccountRoundTrip(b);
  }

  lemma AccountParts(parts: seq<string>)
    ensures ParseRestoring(parts).Ok? ==>
              var id := ParseRestoring(parts).value; id.authId != "" && ValidRestoreMode(id.restoreMode)
    ensures ParseIdentified(parts).Ok? ==>
              var id := ParseIdentified(parts).value; id.authId != "" && id.restoreMode == ""
    ensures ParseUsername(parts).Ok? ==>
              && |parts| == 5 && parts[0] == "q1" && parts[1] == "qumulo"
              && var id := ParseUsername(parts).value; id.authId == "" && id.restoreMode == ""
  {
    if |parts| > 5 { UnescapeNonEmpty(parts[5]); }
    hide QueryUnescape, ValidRestoreMode;
  }

  /** An account identifier is accepted only under one of the three versions: under the first without an auth id,
      and under the third with a restore mode of four octal digits that starts with a zero. */
  lemma AcceptedAccounts(raw: string)
    requires ParseAccountId(raw).Ok?
    ensures "q1:qumulo:" <= raw || "q2:qumulo:" <= raw || "q3:qumulo:" <= raw
    ensures var id := ParseAccountId(raw).value;
            && (id.authId == "" <==> !("q2:qumulo:" <= raw || "q3:qumulo:" <= raw))
            && (id.restoreMode != "" <==> "q3:qumulo:" <= raw)
            && (id.restoreMode != "" ==> |id.restoreMode| == 4 && id.restoreMode[0] == '0')
            && forall c <- id.restoreMode :: c in "01234567"
  {
    AccountParts(SplitN(raw, 7));
    AccountParts(SplitN(raw, 6));
    AccountParts(SplitN(raw, 5));
    RestoreModeIff(ParseAccountId(raw).value.restoreMode);
    hide SplitN, ParseRestoring, ParseIdentified, ParseUsername, ValidRestoreMode;
    if !("q3:qumulo:" <= raw) && !("q2:qumulo:" <= raw) { FirstVersion(raw); }
  }

  lemma RestoreModeIff(mode: string)
    ensures ValidRestoreMode(mode) <==> |mode| == 4 && mode[0] == '0' && forall c <- mode :: c in "01234567"
  {
    if |mode| == 4 {
      assert forall i | 0 <= i < 4 :: mode[i] in mode;
      forall c: char ensures c in "01234567" <==> '0' <= c <= '7' { OctalDigit(c); }
    }
  }

  lemma OctalDigit(c: char)
    ensures c in "01234567" <==> '0' <= c <= '7'
  {
    if '0' <= c <= '7' { assert "01234567"[(c - '0') as int] == c; }
  }
}
