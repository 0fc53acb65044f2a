/** The mount options a caller may supply, and what an existing mount must look like.

    Supplied flags are comma-separated lists. What is accepted, and the resulting options, turn out to
    depend only on the set of items in them. */
module MountOptions {
  import opened Text
  import opened Wrappers

  // ---------------------------------------------------------------- items

  function Pieces(parts: seq<string>): set<string> {
    set p | p in parts && TrimSpace(p) != "" :: TrimSpace(p)
  }

  /** All items of all the comma-separated lists. */
  function Items(flags: seq<string>): set<string> {
    set f, x | f in flags && x in Pieces(Split(f, ',')) :: x
  }

  predicate KeyChar(c: char) {
    'a' <= c <= 'z' || 'A' <= c <= 'Z' || '0' <= c <= '9' || c == '_' || c == '-' || c == '.'
  }

  predicate ValidKey(key: string) {
    key != "" && key[0] != '-' && forall c <- key :: KeyChar(c)
  }

  /** The part before the equals sign, in lower case. */
  function Key(item: string): string {
    ToLower(Before(item, '='))
  }

  /** The item with its key in lower case. */
  function Normal(item: string): string {
    if Has(item, '=') then Key(item) + "=" + After(item, '=') else Key(item)
  }

  /** Options that could redirect the source, inject credentials or weaken the transport. */
  predicate Reserved(key: string) {
    key in {
      "addr", "ip", "mountaddr", "mounthost", "clientaddr", "unc", "source", "device", "prefixpath", "prepath",
      "port", "mountport", "nfsprog", "mountprog", "servern", "servernetbiosname",
      "cred", "creds", "credential", "credentials", "credfile", "credentialsfile", "user", "username",
      "pass", "password", "pass2", "password2", "domain", "dom", "workgroup", "domainauto",
      "guest", "nullauth", "multiuser", "cruid", "upcall_target",
      "backupuid", "backupgid", "backup_uid", "backup_gid", "snapshot",
      "vers", "version", "nfsvers", "mountvers", "minorversion",
      "sec", "security", "seal", "noseal", "sign", "nosign", "proto", "protocol", "mountproto",
      "tcp", "tcp6", "udp", "udp6", "rdma", "rdma6", "xprtsec", "soft", "softerr", "softreval", "nosoftreval",
      "sharesock", "nosharesock",
      "bind", "rbind", "move", "remount", "defaults", "loop", "offset", "sizelimit", "sloppy",
      "bg", "background", "nofail", "auto", "noauto", "dev", "suid", "users", "owner", "group", "ro", "rw"}
  }

  function OppositeOf(key: string): string {
    if key == "exec" then "noexec" else if key == "noexec" then "exec"
    else if key == "atime" then "noatime" else if key == "noatime" then "atime"
    else if key == "sync" then "async" else if key == "async" then "sync"
    else if key == "ro" then "rw" else if key == "rw" then "ro" else ""
  }

  predicate Opposite(a: string, b: string) {
    OppositeOf(a) != "" && b == OppositeOf(a)
  }

  predicate ControlledPrefix(key: string) {
    "x-mount." <= key || "x-mount-" <= key
  }

  predicate ValidItem(item: string) {
    && '\0' !in item && '\r' !in item && '\n' !in item
    && ValidKey(Before(item, '=')) && !ControlledPrefix(Key(item)) && !Reserved(Key(item))
  }

  predicate Clash(a: string, b: string) {
    (Key(a) == Key(b) && Normal(a) != Normal(b)) || Opposite(Key(a), Key(b))
  }

  /** Every item is allowed and no two contradict each other. */
  predicate Accepted(items: set<string>) {
    && (forall a <- items :: ValidItem(a))
    && (forall a, b | a in items && b in items :: !Clash(a, b))
  }

  function Normals(items: set<string>): set<string> {
    set a | a in items :: Normal(a)
  }

  // ---------------------------------------------------------------- sanitizing

  ghost predicate Collected(done: set<string>, seenByKey: map<string, string>, seen: set<string>) {
    && Accepted(done) && seen == Normals(done)
    && (forall a <- done :: Key(a) in seenByKey && seenByKey[Key(a)] == Normal(a))
    && (forall k <- seenByKey :: exists a :: a in done && Key(a) == k)
  }

  lemma OppositeIs(a: string, b: string)
    ensures Opposite(a, b) <==> Opposite(b, a)
    ensures !Opposite(a, a)
  {
  }

  lemma CollectOne(done: set<string>, seenByKey: map<string, string>, seen: set<string>, item: string)
    requires Collected(done, seenByKey, seen) && ValidItem(item)
    ensures var k := Key(item);
            if k in seenByKey then
              if seenByKey[k] != Normal(item) then !Accepted(done + {item})
              else Collected(done + {item}, seenByKey, seen)
            else
              if OppositeOf(k) != "" && OppositeOf(k) in seenByKey then !Accepted(done + {item})
              else Collected(done + {item}, seenByKey[k := Normal(item)], seen + {Normal(item)})
  {
    forall a, b { OppositeIs(Key(a), Key(b)); }
    hide OppositeOf, Key, Normal, ValidItem;
    var k := Key(item);
    assert Normals(done + {item}) == Normals(done) + {Normal(item)};
    if k in seenByKey {
      var a :| a in done && Key(a) == k;
      if seenByKey[k] != Normal(item) {
        assert Clash(a, item);
      } else {
        assert Normal(a) in Normals(done);
        forall x, y | x in done + {item} && y in done + {item} ensures !Clash(x, y) {
          assert !Clash(if x == item then a else x, if y == item then a else y);
        }
      }
    } else if OppositeOf(k) != "" && OppositeOf(k) in seenByKey {
      var a :| a in done && Key(a) == OppositeOf(k);
      assert Clash(item, a);
    } else {
      forall x, y | x in done + {item} && y in done + {item} ensures !Clash(x, y) {
        if x != item && y != item { assert !Clash(x, y); }
      }
    }
  }

  lemma ItemsPrefix(flags: seq<string>, i: nat)
    requires i < |flags|
    ensures Items(flags[..i + 1]) == Items(flags[..i]) + Pieces(Split(flags[i], ','))
  {
    assert flags[..i + 1] == flags[..i] + [flags[i]];
    hide TrimSpace, Pieces;
  }

  lemma PiecesPrefix(parts: seq<string>, j: nat)
    requires j < |parts|
    ensures Pieces(parts[..j + 1]) == Pieces(parts[..j])
            + (if TrimSpace(parts[j]) == "" then {} else {TrimSpace(parts[j])})
  {
    assert parts[..j + 1] == parts[..j] + [parts[j]];
    hide TrimSpace;
  }

  lemma ItemsSoFar(flags: seq<string>, i: nat, j: nat)
    requires i < |flags| && j <= |Split(flags[i], ',')|
    ensures Items(flags[..i]) + Pieces(Split(flags[i], ',')[..j]) <= Items(flags)
  {
    hide TrimSpace, Split;
    var parts := Split(flags[i], ',');
    assert Pieces(parts[..j]) <= Pieces(parts) by { assert forall p <- parts[..j] :: p in parts; }
    assert Pieces(parts) <= Items(flags) by { assert flags[i] in flags; }
    assert Items(flags[..i]) <= Items(flags) by { assert forall f <- flags[..i] :: f in flags; }
  }

  lemma RejectedSubset(some: set<string>, all: set<string>)
    requires some <= all && !Accepted(some)
    ensures !Accepted(all)
  {
    hide Clash, ValidItem;
  }

  lemma InvalidItem(done: set<string>, item: string)
    requires !ValidItem(item)
    ensures !Accepted(done + {item})
  {
    assert item in done + {item};
    hide ValidItem, Clash;
  }

  /** What sanitizing means: a function of the item set. */
  ghost predicate Sanitizes(flags: seq<string>, r: Result<seq<string>>) {
    && (r.Ok? <==> Accepted(Items(flags)))
    && (r.Ok? ==> Lists(r.value, Normals(Items(flags))))
  }

  /** Succeeds exactly on acceptable items, with their normal forms in strictly ascending order. */
  method SanitizedMountFlags(flags: seq<string>) returns (r: Result<seq<string>>)
    ensures Sanitizes(flags, r)
  {
    var seen: set<string> := {};
    var seenByKey: map<string, string> := map[];
    assert Items(flags[..0]) == {} && flags[..|flags|] == flags;
    assert Collected({}, seenByKey, seen);
    hide Accepted, Normals, Items, Pieces, Reserved, Opposite, OppositeOf, Collected, Normal, Key, TrimSpace, Split;
    for i := 0 to |flags|
      invariant Collected(Items(flags[..i]), seenByKey, seen)
    {
      var parts := Split(flags[i], ',');
      NoPieces(parts);
      assert Items(flags[..i]) + Pieces(parts[..0]) == Items(flags[..i]);
      for j := 0 to |parts|
        invariant Collected(Items(flags[..i]) + Pieces(parts[..j]), seenByKey, seen)
      {
        ghost var done := Items(flags[..i]) + Pieces(parts[..j]);
        var item := TrimSpace(parts[j]);
        PiecesPrefix(parts, j);
        ItemsSoFar(flags, i, j + 1);
        ghost var next := Items(flags[..i]) + Pieces(parts[..j + 1]);
        assert next == if item == "" then done else done + {item};
        if item == "" {
          continue;
        }
        var key := Key(item);
        if '\0' in item || '\r' in item || '\n' in item || !ValidKey(Before(item, '=')) || ControlledPrefix(key)
            || Reserved(key) {
          InvalidItem(done, item);
          RejectedSubset(next, Items(flags));
          return Err;
        }
        CollectOne(done, seenByKey, seen, item);
        if key in seenByKey {
          if seenByKey[key] != Normal(item) {
            RejectedSubset(next, Items(flags));
            return Err;
          }
          continue;
        }
        if OppositeOf(key) != "" && OppositeOf(key) in seenByKey {
          RejectedSubset(next, Items(flags));
          return Err;
        }
        seenByKey := seenByKey[key := Normal(item)];
        seen := seen + {Normal(item)};
      }
      ItemsPrefix(flags, i);
      assert parts[..|parts|] == parts;
    }
    CollectedSeen(Items(flags), seenByKey, seen);
    var out := Sorted(seen);
    return Ok(out);
  }

  lemma NoPieces(parts: seq<string>)
    ensures Pieces(parts[..0]) == {}
  {
  }

  lemma CollectedSeen(done: set<string>, seenByKey: map<string, string>, seen: set<string>)
    requires Collected(done, seenByKey, seen)
    ensures Accepted(done) && seen == Normals(done)
  {
  }

  // ---------------------------------------------------------------- the canonical form

  /** Reordering, regrouping or repeating items never changes the outcome. */
  lemma OnlyItemsMatter(flags: seq<string>, other: seq<string>, r: Result<seq<string>>, q: Result<seq<string>>)
    requires Items(flags) == Items(other) && Sanitizes(flags, r) && Sanitizes(other, q)
    ensures r == q
  {
    hide Items, Normals, Accepted;
    if r.Ok? { ListingIsUnique(r.value, q.value, Normals(Items(flags))); }
  }

  lemma ItemsConcat(xs: seq<string>, ys: seq<string>)
    ensures Items(xs + ys) == Items(xs) + Items(ys)
  {
    hide Pieces;
  }

  lemma ItemsOfOne(a: string)
    ensures Items([a]) == Pieces(Split(a, ','))
  {
    hide Pieces;
  }

  /** Joining two lists with a comma is supplying both. */
  lemma Regrouped(a: string, b: string)
    ensures Items([a + "," + b]) == Items([a]) + Items([b])
  {
    SplitJoined(a, b, ',');
    ItemsOfOne(a);
    ItemsOfOne(b);
    ItemsOfOne(a + "," + b);
    assert Pieces(Split(a, ',') + Split(b, ',')) == Pieces(Split(a, ',')) + Pieces(Split(b, ','))
           by { hide Split, TrimSpace; }
  }

  lemma NormalKeepsKey(a: string)
    ensures Key(Normal(a)) == Key(a) && Normal(Normal(a)) == Normal(a) && Has(Normal(a), '=') == Has(a, '=')
    ensures Has(a, '=') ==> After(Normal(a), '=') == After(a, '=')
    ensures Before(Normal(a), '=') == Key(a)
  {
    var n := Normal(a);
    IndexIs(n, '=', |Key(a)|);
    assert Before(n, '=') == Key(a);
    ToLowerTwice(Before(a, '='));
  }

  lemma NormalIsValid(a: string)
    requires ValidItem(a)
    ensures ValidItem(Normal(a))
  {
    NormalKeepsKey(a);
    var k := Before(a, '=');
    assert forall i | 0 <= i < |k| :: Key(a)[i] == Lower(k[i]);
    assert a == k + (if Has(a, '=') then "=" + After(a, '=') else "");
    hide Reserved, ControlledPrefix;
    forall c | c in Key(a) ensures KeyChar(c) && c != '\0' && c != '\r' && c != '\n' {
      var i :| 0 <= i < |k| && Key(a)[i] == c;
      assert KeyChar(k[i]);
    }
  }

  /** What is accepted has distinct keys, none reserved and no contradictory pair. */
  lemma AcceptedIsCoherent(flags: seq<string>, out: seq<string>)
    requires Sanitizes(flags, Ok(out))
    ensures forall x, y | x in out && y in out && Key(x) == Key(y) :: x == y
    ensures forall x, y | x in out && y in out :: !Opposite(Key(x), Key(y))
    ensures forall x <- out :: ValidItem(x) && Normal(x) == x && !Reserved(Key(x)) && !ControlledPrefix(Key(x))
  {
    var items := Items(flags);
    forall x | x in out ensures exists a :: a in items && Normal(a) == x { assert x in Normals(items); }
    forall x | x in out
      ensures ValidItem(x) && Normal(x) == x && !Reserved(Key(x)) && !ControlledPrefix(Key(x))
    {
      var a :| a in items && Normal(a) == x;
      NormalIsValid(a);
      NormalKeepsKey(a);
    }
    forall x, y | x in out && y in out ensures (Key(x) == Key(y) ==> x == y) && !Opposite(Key(x), Key(y)) {
      var a :| a in items && Normal(a) == x;
      var b :| b in items && Normal(b) == y;
      NormalKeepsKey(a);
      NormalKeepsKey(b);
      assert !Clash(a, b);
    }
  }

  // ---------------------------------------------------------------- idempotence

  lemma ItemsAreClean(flags: seq<string>, a: string)
    requires a in Items(flags)
    ensures Clean(a)
  {
    var f :| f in flags && a in Pieces(Split(f, ','));
    var p :| p in Split(f, ',') && TrimSpace(p) == a;
    TrimSpaceTrims(p);
  }

  predicate Clean(x: string) {
    x != "" && Trimmed(x) && ',' !in x
  }

  lemma NormalIsClean(a: string)
    requires Clean(a) && ValidItem(a)
    ensures Clean(Normal(a))
  {
    NormalKeepsKey(a);
    var k, n := Before(a, '='), Normal(a);
    assert forall i | 0 <= i < |k| :: Key(a)[i] == Lower(k[i]) && KeyChar(k[i]);
    assert !IsSpace(Key(a)[0]) && ',' !in Key(a);
    if Has(a, '=') {
      assert a[|a| - 1] == n[|n| - 1];
      assert forall c <- After(a, '=') :: c in a;
      hide Key, ToLower;
      assert ',' !in n;
    }
  }

  lemma CleanSplit(x: string)
    requires Clean(x)
    ensures Pieces(Split(x, ',')) == {x}
  {
    TrimSpaceTrims(x);
    IndexIs(x, ',', |x|);
    assert Split(x, ',') == [x];
  }

  lemma {:induction false} CleanItems(out: seq<string>)
    requires forall x <- out :: Clean(x)
    ensures Items(out) == set x | x in out
    decreases |out|
  {
    hide Clean, Pieces;
    forall x | x in out ensures Pieces(Split(x, ',')) == {x} { CleanSplit(x); }
    hide Split;
  }

  /** Sanitizing twice is sanitizing once. */
  lemma SanitizingIsIdempotent(flags: seq<string>, out: seq<string>)
    requires Sanitizes(flags, Ok(out))
    ensures Sanitizes(out, Ok(out))
  {
    AcceptedIsCoherent(flags, out);
    OutputIsClean(flags, out);
    CleanItems(out);
    var items := set x | x in out;
    assert Normals(items) == items;
    hide Key, Normal, ValidItem, Opposite, Clean, Items;
    assert Accepted(items);
  }

  lemma OutputIsClean(flags: seq<string>, out: seq<string>)
    requires Sanitizes(flags, Ok(out))
    ensures forall x <- out :: Clean(x)
  {
    hide Normal, Clean, Items, Trimmed, ValidItem;
    forall x | x in out ensures Clean(x) {
      assert x in Normals(Items(flags));
      var a :| a in Items(flags) && Normal(a) == x;
      assert Clean(a) by { ItemsAreClean(flags, a); }
      NormalIsClean(a);
    }
  }

  // ---------------------------------------------------------------- which options get through

  /** None of these options gets through, in whatever case, with whatever value and beside whatever else:
      another server or source, credentials, another protocol or a weaker transport, what mount itself
      acts on. */
  lemma ControlledOptionsAreRefused(flags: seq<string>, r: Result<seq<string>>, item: string)
    requires Sanitizes(flags, r) && item in Items(flags)
    ensures r.Ok? ==> ToLower(Before(item, '=')) !in {
      "addr", "ip", "mountaddr", "mounthost", "clientaddr", "unc", "source", "device", "prefixpath", "prepath",
      "port", "mountport", "nfsprog", "mountprog", "servern", "servernetbiosname"}
    ensures r.Ok? ==> ToLower(Before(item, '=')) !in {
      "cred", "creds", "credential", "credentials", "credfile", "credentialsfile", "user", "username",
      "pass", "password", "pass2", "password2", "domain", "dom", "workgroup", "domainauto",
      "guest", "nullauth", "multiuser", "cruid", "upcall_target",
      "backupuid", "backupgid", "backup_uid", "backup_gid", "snapshot"}
    ensures r.Ok? ==> ToLower(Before(item, '=')) !in {
      "vers", "version", "nfsvers", "mountvers", "minorversion", "sec", "security", "seal", "noseal", "sign",
      "nosign", "proto", "protocol", "mountproto", "tcp", "tcp6", "udp", "udp6", "rdma", "rdma6", "xprtsec",
      "soft", "softerr", "softreval", "nosoftreval", "sharesock", "nosharesock"}
    ensures r.Ok? ==> ToLower(Before(item, '=')) !in {
      "bind", "rbind", "move", "remount", "defaults", "loop", "offset", "sizelimit", "sloppy",
      "bg", "background", "nofail", "auto", "noauto", "dev", "suid", "users", "owner", "group", "ro", "rw"}
    ensures |ToLower(Before(item, '='))| >= 8 && ToLower(Before(item, '='))[..8] in {"x-mount.", "x-mount-"} ==> r.Err?
  {
    hide Items;
    if r.Ok? { assert ValidItem(item); }
  }

  /** What does get through has a key of letters, digits and three signs that does not start like a switch. */
  lemma MalformedItemsAreRefused(flags: seq<string>, out: seq<string>, item: string)
    requires Sanitizes(flags, Ok(out)) && item in Items(flags)
    ensures var key := Before(item, '=');
            && key != "" && key[0] != '-'
            && forall c <- key :: 'a' <= c <= 'z' || 'A' <= c <= 'Z' || '0' <= c <= '9' || c in "_-."
    ensures forall c <- item :: c != '\0' && c != '\r' && c != '\n'
  {
    hide Items, Reserved;
    assert ValidItem(item);
  }

  /** Each of the two contradicts the other. */
  lemma ContradictionsAreRefused(flags: seq<string>, out: seq<string>, a: string, b: string)
    requires Sanitizes(flags, Ok(out)) && a in Items(flags) && b in Items(flags)
    ensures (ToLower(Before(a, '=')), ToLower(Before(b, '='))) !in {
      ("exec", "noexec"), ("atime", "noatime"), ("sync", "async"), ("ro", "rw")}
  {
    hide Items, Reserved, ValidItem, Normal;
    assert !Clash(a, b);
    hide Before, ToLower;
  }

  /** An option is not accepted twice with different values, or with and without one. */
  lemma ConflictsAreRefused(flags: seq<string>, out: seq<string>, a: string, b: string)
    requires Sanitizes(flags, Ok(out)) && a in Items(flags) && b in Items(flags)
    requires ToLower(Before(a, '=')) == ToLower(Before(b, '='))
    ensures Has(a, '=') == Has(b, '=') && (Has(a, '=') ==> After(a, '=') == After(b, '='))
  {
    NormalKeepsKey(a);
    NormalKeepsKey(b);
    hide Items, Reserved, ValidItem, Opposite;
    assert !Clash(a, b);
    hide Before, ToLower, Normal, Has, After;
  }

  /** Any other option with such a key gets through on its own, */
  lemma OtherOptionsPass(item: string, r: Result<seq<string>>)
    requires Clean(item) && Sanitizes([item], r) && forall c <- item :: c != '\0' && c != '\r' && c != '\n'
    requires var key := Before(item, '=');
             && key != "" && key[0] != '-'
             && forall c <- key :: 'a' <= c <= 'z' || 'A' <= c <= 'Z' || '0' <= c <= '9' || c in "_-."
    ensures r.Ok? <==> !ControlledPrefix(Key(item)) && !Reserved(Key(item))
  {
    CleanSplit(item);
    ItemsOfOne(item);
    OppositeIs(Key(item), Key(item));
    hide Items, OppositeOf, Opposite, Reserved, ControlledPrefix, Key, Normal, Before, Clean;
    assert Accepted({item}) <==> ValidItem(item);
  }

  lemma TuningKeys(key: string)
    requires key in {
      "rsize", "wsize", "noatime", "nodiratime", "lookupcache", "actimeo", "cache", "uid", "gid", "file_mode",
      "dir_mode", "noserverino", "hard", "nodev", "nosuid", "timeo", "retrans"}
    ensures key != "" && key[0] != 'x' && forall i | 0 <= i < |key| :: 'a' <= key[i] <= 'z' || key[i] == '_'
  {
  }

  lemma TuningIsFree(key: string)
    requires key in {
      "rsize", "wsize", "noatime", "nodiratime", "lookupcache", "actimeo", "cache", "uid", "gid", "file_mode",
      "dir_mode", "noserverino", "hard", "nodev", "nosuid", "timeo", "retrans"}
    ensures !Reserved(key)
  {
    hide ToLower;
  }

  /** among them those that tune a mount. */
  lemma TuningPasses(item: string, r: Result<seq<string>>)
    requires Clean(item) && Sanitizes([item], r) && forall c <- item :: c != '\0' && c != '\r' && c != '\n'
    requires Before(item, '=') in {
      "rsize", "wsize", "noatime", "nodiratime", "lookupcache", "actimeo", "cache", "uid", "gid", "file_mode",
      "dir_mode", "noserverino", "hard", "nodev", "nosuid", "timeo", "retrans"}
    ensures r.Ok?
  {
    var key := Before(item, '=');
    TuningKeys(key);
    TuningIsFree(key);
    hide Sanitizes, Clean, Before, Reserved;
    assert ToLower(key) == key && !ControlledPrefix(key);
    OtherOptionsPass(item, r);
  }
}
