/** The options a volume is mounted with, and how an existing mount is recognised as the same one. */
module MountVerification {
  import opened Text
  import opened MountOptions
  import opened Wrappers

  datatype Protocol = Nfs | Smb

  /** The part of the signed handle that determines a mount. An empty NFS version means 4.1. */
  datatype Volume = Volume(proto: Protocol, nfsVersion: string, encrypted: bool, source: string)

  datatype Record = Record(root: string, source: string, fsType: string, mountOptions: seq<string>,
      options: seq<string>)

  function Version(v: Volume): string {
    if v.nfsVersion == "" then "4.1" else v.nfsVersion
  }

  function Valued(key: string, value: string): string {
    key + "=" + value
  }

  function NfsCommon(version: string): seq<string> {
    [Valued("vers", version)] + [Valued("sec", "sys")] + ["hard"] + [Valued("timeo", "600")]
    + [Valued("retrans", "2")] + ["nodev"] + ["nosuid"]
  }

  function SmbCommon(): seq<string> {
    [Valued("vers", "3.1.1")] + ["nosharesock"] + [Valued("actimeo", "30")] + ["nodev"] + ["nosuid"]
  }

  /** What the driver itself mounts with. */
  function Base(v: Volume, credentials: string): seq<string> {
    match v.proto
    case Nfs => if Version(v) == "3" then NfsCommon("3") + ["nolock"] else NfsCommon(Version(v))
    case Smb => (if v.encrypted then SmbCommon() + ["seal"] else SmbCommon()) + [Valued("credentials", credentials)]
  }

  /** Options the driver sets itself for one protocol, beyond the reserved ones. */
  predicate Controlled(proto: Protocol, key: string) {
    proto.Nfs? && key in {"timeo", "retrans"}
  }

  predicate PublishAccepts(v: Volume, flags: seq<string>) {
    Accepted(Items(flags)) && forall a <- Items(flags) :: !Controlled(v.proto, Key(a))
  }

  // ---------------------------------------------------------------- merging

  /** Bare flags by lower-cased name and whatever is kept of each valued option, by lower-cased key: the
      whole option when merging, its last value when reading a record. */
  datatype Options = Options(flags: set<string>, values: map<string, string>)

  function Add(o: Options, option: string): Options {
    if Has(option, '=') then o.(values := o.values[Key(option) := option])
    else o.(flags := o.flags + {Key(option)})
  }

  function AddAll(o: Options, options: seq<string>): Options
    decreases |options|
  {
    if options == [] then o else Add(AddAll(o, options[..|options| - 1]), options[|options| - 1])
  }

  /** The read-only bit of the request overrides whatever mode is there. */
  function WithMode(o: Options, readOnly: bool): Options {
    if readOnly then o.(flags := o.flags - {"rw"} + {"ro"}) else o.(flags := o.flags - {"ro"} + {"rw"})
  }

  function All(o: Options): set<string> {
    o.flags + o.values.Values
  }

  function Merged(base: seq<string>, clean: seq<string>, readOnly: bool): Options {
    WithMode(AddAll(AddAll(Options({}, map[]), base), clean), readOnly)
  }

  ghost predicate Merges(base: seq<string>, supplied: seq<string>, readOnly: bool, r: Result<seq<string>>) {
    && (r.Ok? <==> Accepted(Items(supplied)))
    && (r.Ok? ==> exists clean :: Sanitizes(supplied, Ok(clean))
                                  && Lists(r.value, All(Merged(base, clean, readOnly))))
  }

  lemma AddPrefix(o: Options, options: seq<string>, i: nat)
    requires i < |options|
    ensures AddAll(o, options[..i + 1]) == Add(AddAll(o, options[..i]), options[i])
  {
    assert options[..i + 1][..i] == options[..i];
  }

  method MergeMountOptions(base: seq<string>, supplied: seq<string>, readOnly: bool) returns (r: Result<seq<string>>)
    ensures Merges(base, supplied, readOnly, r)
  {
    var clean := SanitizedMountFlags(supplied);
    if clean.Err? { return Err; }
    var o := Options({}, map[]);
    assert base[..0] == [] && base[..|base|] == base && clean.value[..0] == []
           && clean.value[..|clean.value|] == clean.value;
    hide Sanitizes, Add;
    for i := 0 to |base|
      invariant o == AddAll(Options({}, map[]), base[..i])
    {
      AddPrefix(Options({}, map[]), base, i);
      o := Add(o, base[i]);
    }
    for i := 0 to |clean.value|
      invariant o == AddAll(AddAll(Options({}, map[]), base), clean.value[..i])
    {
      AddPrefix(AddAll(Options({}, map[]), base), clean.value, i);
      o := Add(o, clean.value[i]);
    }
    o := WithMode(o, readOnly);
    var out := Sorted(All(o));
    return Ok(out);
  }

  // ---------------------------------------------------------------- reading a mount record

  function RecordItem(st: Options, item: string): Options {
    if TrimSpace(item) == "" || !ValidKey(Before(TrimSpace(item), '=')) then st
    else if Has(TrimSpace(item), '=') then st.(values := st.values[Key(TrimSpace(item)) := After(TrimSpace(item), '=')])
    else st.(flags := st.flags + {Key(TrimSpace(item))})
  }

  function RecordAll(st: Options, items: seq<string>): Options
    decreases |items|
  {
    if items == [] then st else RecordItem(RecordAll(st, items[..|items| - 1]), items[|items| - 1])
  }

  function RecordOptions(options: seq<string>): Options
    decreases |options|
  {
    if options == [] then Options({}, map[])
    else RecordAll(RecordOptions(options[..|options| - 1]), Split(options[|options| - 1], ','))
  }

  method NewRecordedMountOptions(options: seq<string>) returns (st: Options)
    ensures st == RecordOptions(options)
  {
    st := Options({}, map[]);
    assert options[..|options|] == options && options[..0] == [];
    hide RecordItem, Split;
    for i := 0 to |options|
      invariant st == RecordOptions(options[..i])
    {
      ghost var before := st;
      var items := Split(options[i], ',');
      assert items[..|items|] == items && items[..0] == [] && options[..i + 1][..i] == options[..i];
      for j := 0 to |items|
        invariant st == RecordAll(before, items[..j])
      {
        assert items[..j + 1][..j] == items[..j];
        st := RecordItem(st, items[j]);
      }
    }
  }

  // ---------------------------------------------------------------- recognising a mount

  function ExpectedFSType(v: Volume): string {
    if v.proto.Smb? then "cifs" else if v.nfsVersion == "3" then "nfs" else "nfs4"
  }

  predicate SameSource(proto: Protocol, actual: string, expected: string) {
    if proto.Smb? then EqualFold(TrimSlashes(actual), TrimSlashes(expected)) else actual == expected
  }

  predicate SameIdentity(v: Volume, r: Record) {
    && SameSource(v.proto, r.source, v.source)
    && EqualFold(TrimSpace(r.fsType), ExpectedFSType(v))
    && r.root == "/"
  }

  function ModeOptions(r: Record): seq<string> {
    if r.mountOptions == [] then r.options else r.mountOptions
  }

  predicate HasValue(st: Options, want: string, key: string, alias: string) {
    (key in st.values && EqualFold(st.values[key], want)) || (alias in st.values && EqualFold(st.values[alias], want))
  }

  predicate RequiredOptions(v: Volume, st: Options) {
    && "nodev" in st.flags && "nosuid" in st.flags
    && match v.proto {
      case Smb => HasValue(st, "3.1.1", "vers", "version") && (v.encrypted ==> "seal" in st.flags)
      case Nfs =>
        && HasValue(st, Version(v), "vers", "nfsvers") && HasValue(st, "sys", "sec", "security")
        && "hard" in st.flags && "soft" !in st.flags && "softerr" !in st.flags
        && HasValue(st, "600", "timeo", "timeo") && HasValue(st, "2", "retrans", "retrans")
    }
  }

  predicate Satisfied(st: Options, option: string) {
    if Has(option, '=') then Key(option) in st.values && st.values[Key(option)] == After(option, '=')
    else Key(option) in st.flags
  }

  predicate RequestedOptions(st: Options, requested: seq<string>) {
    Accepted(Items(requested)) && forall n <- Normals(Items(requested)) :: Satisfied(st, n)
  }

  /** When an existing mount counts as the one a publish request asks for. */
  predicate MountMatches(v: Volume, r: Record, readOnly: bool, requested: seq<string>) {
    var st, mode := RecordOptions(r.options), RecordOptions(ModeOptions(r)).flags;
    && SameIdentity(v, r)
    && ("ro" in mode) != ("rw" in mode) && ("ro" in mode) == readOnly
    && RequiredOptions(v, st)
    && RequestedOptions(st, requested)
  }

  // ---------------------------------------------------------------- well-formed options

  predicate Word(key: string) {
    key != "" && forall i | 0 <= i < |key| :: 'a' <= key[i] <= 'z'
  }

  /** An option that survives joining, splitting and trimming, its key being in lower case. */
  predicate Tidy(x: string) {
    Clean(x) && ValidKey(Before(x, '=')) && Key(x) == Before(x, '=')
  }

  predicate PlainValue(value: string) {
    value != "" && ',' !in value && !IsSpace(value[|value| - 1])
  }

  lemma WordFacts(key: string)
    requires Word(key)
    ensures Tidy(key) && !Has(key, '=') && Key(key) == key
  {
    IndexIs(key, '=', |key|);
    assert ToLower(key) == key;
  }

  lemma ValuedFacts(key: string, value: string)
    requires Word(key) && PlainValue(value)
    ensures var x := Valued(key, value); Tidy(x) && Has(x, '=') && Key(x) == key && After(x, '=') == value
  {
    var x := Valued(key, value);
    IndexIs(x, '=', |key|);
    assert Before(x, '=') == key && ToLower(key) == key && After(x, '=') == value;
    assert x[0] == key[0] && x[|x| - 1] == value[|value| - 1];
    hide ToLower;
  }

  lemma NormalIsTidy(flags: seq<string>, clean: seq<string>)
    requires Sanitizes(flags, Ok(clean))
    ensures forall n <- clean :: Tidy(n) && ValidItem(n) && (!Has(n, '=') ==> Key(n) == n) && n in Normals(Items(flags))
    ensures forall x, y | x in clean && y in clean && Key(x) == Key(y) :: x == y
  {
    AcceptedIsCoherent(flags, clean);
    OutputIsClean(flags, clean);
    forall n | n in clean ensures Key(n) == Before(n, '=') { NormalKeepsKey(n); }
    hide Items, Normals, Key, Opposite, ControlledPrefix, Reserved, Accepted;
  }

  ghost predicate DistinctValues(options: seq<string>) {
    forall x, y | x in options && y in options && Has(x, '=') && Has(y, '=') && Key(x) == Key(y) :: x == y
  }

  // ---------------------------------------------------------------- what merging yields

  ghost predicate TidyOptions(o: Options) {
    && (forall f <- o.flags :: Tidy(f) && !Has(f, '=') && Key(f) == f)
    && (forall k <- o.values :: Tidy(o.values[k]) && Has(o.values[k], '=') && Key(o.values[k]) == k)
  }

  lemma TidyFlag(x: string)
    requires Tidy(x) && !Has(x, '=')
    ensures Key(x) == x
  {
  }

  lemma {:induction false} AddAllTidy(o: Options, options: seq<string>)
    requires TidyOptions(o) && forall x <- options :: Tidy(x)
    ensures TidyOptions(AddAll(o, options))
    decreases |options|
  {
    if options != [] {
      var x := options[|options| - 1];
      AddAllTidy(o, options[..|options| - 1]);
      if !Has(x, '=') { TidyFlag(x); }
      hide Tidy, Key, Has;
    }
  }

  function FlagKeys(options: seq<string>): set<string> {
    set x | x in options && !Has(x, '=') :: Key(x)
  }

  lemma {:induction false} AddAllFlags(o: Options, options: seq<string>)
    ensures AddAll(o, options).flags == o.flags + FlagKeys(options)
    decreases |options|
  {
    if options != [] {
      var x := options[|options| - 1];
      var front := options[..|options| - 1];
      AddAllFlags(o, front);
      hide Has, Key;
      assert options == front + [x];
      assert FlagKeys(options) == FlagKeys(front) + if Has(x, '=') then {} else {Key(x)};
    }
  }

  lemma {:induction false} ValueAdded(o: Options, options: seq<string>, x: string)
    requires DistinctValues(options) && x in options && Has(x, '=')
    ensures Key(x) in AddAll(o, options).values && AddAll(o, options).values[Key(x)] == x
    decreases |options|
  {
    var last, front := options[|options| - 1], options[..|options| - 1];
    assert options == front + [last];
    hide Has, Key;
    if x != last {
      assert forall y <- front :: y in options;
      ValueAdded(o, front, x);
    }
  }

  lemma {:induction false} ValueKept(o: Options, options: seq<string>, k: string)
    requires forall x <- options :: Has(x, '=') ==> Key(x) != k
    ensures k in AddAll(o, options).values <==> k in o.values
    ensures k in o.values ==> AddAll(o, options).values[k] == o.values[k]
    decreases |options|
  {
    hide Has, Key;
    if options != [] { ValueKept(o, options[..|options| - 1], k); }
  }

  predicate IsMode(key: string) {
    key == "ro" || key == "rw"
  }

  /** Goes through the merged options, except for the mode that the mount record keeps elsewhere. */
  method ValidateRequestedMountOptions(r: Record, requested: seq<string>, readOnly: bool) returns (ok: bool)
    ensures ok <==> RequestedOptions(RecordOptions(r.options), requested)
  {
    hide RecordOptions, Accepted, Items, Normals, Key, Satisfied, IsMode, Sanitizes, Lists, Merged;
    var effective := MergeMountOptions([], requested, readOnly);
    if effective.Err? { return false; }
    EffectiveOptions(requested, effective.value, readOnly);
    hide Merges;
    var st := NewRecordedMountOptions(r.options);
    ok := true;
    for i := 0 to |effective.value|
      invariant forall j | 0 <= j < i :: !IsMode(Key(effective.value[j])) ==> Satisfied(st, effective.value[j])
    {
      var option := effective.value[i];
      if !IsMode(Key(option)) && !Satisfied(st, option) { return false; }
    }
  }

  lemma EffectiveOptions(requested: seq<string>, effective: seq<string>, readOnly: bool)
    requires Merges([], requested, readOnly, Ok(effective))
    ensures forall n <- Normals(Items(requested)) :: n in effective && !IsMode(Key(n))
    ensures forall x <- effective :: IsMode(Key(x)) || x in Normals(Items(requested))
  {
    var clean :| Sanitizes(requested, Ok(clean))
                 && Lists(effective, All(Merged([], clean, readOnly)));
    MergedAlone(requested, clean, readOnly);
    AcceptedIsCoherent(requested, clean);
    ReservedKeys();
    hide Sanitizes, Items, Normals, AddAll, Key, Reserved, Accepted, ValidItem;
    assert forall x :: x in clean <==> x in Normals(Items(requested)) by { SanitizedElements(requested, clean); }
  }

  lemma SanitizedElements(flags: seq<string>, clean: seq<string>)
    requires Sanitizes(flags, Ok(clean))
    ensures forall x :: x in clean <==> x in Normals(Items(flags))
  {
  }

  lemma ReservedKeys()
    ensures Reserved("ro") && Reserved("rw") && Key("ro") == "ro" && Key("rw") == "rw"
  {
    WordFacts("ro");
    WordFacts("rw");
  }

  /** Merged with nothing, accepted flags are themselves plus the mode. */
  lemma MergedAlone(requested: seq<string>, clean: seq<string>, readOnly: bool)
    requires Sanitizes(requested, Ok(clean))
    ensures All(Merged([], clean, readOnly)) == Normals(Items(requested)) + {if readOnly then "ro" else "rw"}
  {
    var none := Options({}, map[]);
    var o := AddAll(none, clean);
    NormalIsTidy(requested, clean);
    AddAllFlags(none, clean);
    AddAllTidy(none, clean);
    ReservedModes();
    forall n | n in clean ensures n in All(o) && n != "ro" && n != "rw" {
      if Has(n, '=') { ValueAdded(none, clean, n); assert n in o.values.Values; }
    }
    forall n | n in All(o) ensures n in clean {
      if n !in o.flags { ValueComesFrom(none, clean, n); }
    }
    assert "ro" !in o.flags && "rw" !in o.flags;
    hide Sanitizes, Key, Has, ValidItem, Tidy, AddAll, Accepted, FlagKeys;
    forall n ensures n in All(WithMode(o, readOnly))
        <==> n in Normals(Items(requested)) + {if readOnly then "ro" else "rw"} {
    }
  }

  lemma {:induction false} ValueComesFrom(o: Options, options: seq<string>, n: string)
    requires n in AddAll(o, options).values.Values && n !in o.values.Values
    ensures n in options
    decreases |options|
  {
    if options != [] {
      var last, front := options[|options| - 1], options[..|options| - 1];
      assert options == front + [last];
      var before := AddAll(o, front);
      hide Has, Key, AddAll;
      if n != last {
        assert n in before.values.Values;
        ValueComesFrom(o, front, n);
      }
    }
  }

  lemma ReservedModes()
    ensures !ValidItem("ro") && !ValidItem("rw")
  {
    WordFacts("ro");
    WordFacts("rw");
  }

  // ---------------------------------------------------------------- the round trip

  lemma RecordOne(st: Options, x: string)
    requires Tidy(x)
    ensures RecordAll(st, Split(x, ',')) == Record1(st, x)
  {
    TrimSpaceTrims(x);
    IndexIs(x, ',', |x|);
    assert Split(x, ',') == [x] && [x][..0] == [];
    assert RecordAll(st, [x]) == RecordItem(st, x);
  }

  function Record1(st: Options, x: string): Options {
    if Has(x, '=') then st.(values := st.values[Key(x) := After(x, '=')]) else st.(flags := st.flags + {Key(x)})
  }

  lemma {:induction false} RecordTidy(out: seq<string>)
    requires (forall x <- out :: Tidy(x)) && DistinctValues(out)
    ensures RecordOptions(out).flags == FlagKeys(out)
    ensures forall x <- out :: Satisfied(RecordOptions(out), x)
    decreases |out|
  {
    if out != [] {
      var last, front := out[|out| - 1], out[..|out| - 1];
      assert out == front + [last] && forall y <- front :: y in out;
      RecordTidy(front);
      var st := RecordOptions(front);
      RecordOne(st, last);
      assert RecordOptions(out) == Record1(st, last);
      hide Tidy, Has, Key, After, RecordOptions;
      assert FlagKeys(out) == FlagKeys(front) + if Has(last, '=') then {} else {Key(last)};
      forall x | x in out ensures Satisfied(Record1(st, last), x) {
        if x != last { assert x in front && x in out && last in out; }
      }
    }
  }

  lemma MergedDistinct(o: Options, out: seq<string>)
    requires TidyOptions(o) && Lists(out, All(o))
    ensures (forall x <- out :: Tidy(x)) && DistinctValues(out) && FlagKeys(out) == o.flags
  {
    hide Tidy, Has, Key;
    forall x | x in out
        ensures Tidy(x) && (Has(x, '=') ==> Key(x) in o.values && o.values[Key(x)] == x)
                && (!Has(x, '=') ==> x in o.flags && Key(x) == x) {
      if x !in o.flags {
        var k :| k in o.values && o.values[k] == x;
      }
    }
    assert forall f <- o.flags :: f in out;
  }

  lemma MergedTidy(base: seq<string>, clean: seq<string>, readOnly: bool)
    requires (forall x <- base :: Tidy(x)) && forall x <- clean :: Tidy(x)
    ensures TidyOptions(Merged(base, clean, readOnly))
    ensures Merged(base, clean, readOnly).flags
            == WithMode(Options(FlagKeys(base) + FlagKeys(clean), map[]), readOnly).flags
  {
    var none := Options({}, map[]);
    AddAllTidy(none, base);
    AddAllTidy(AddAll(none, base), clean);
    AddAllFlags(none, base);
    AddAllFlags(AddAll(none, base), clean);
    WithModeTidy(AddAll(AddAll(none, base), clean), readOnly);
    hide Tidy, Has, Key, AddAll, FlagKeys, Word, TidyOptions;
  }

  lemma WithModeTidy(o: Options, readOnly: bool)
    requires TidyOptions(o)
    ensures TidyOptions(WithMode(o, readOnly))
  {
    WordFacts("ro");
    WordFacts("rw");
    hide Tidy, Has, Key;
  }

  lemma RecordedOptions(o: Options, out: seq<string>)
    requires TidyOptions(o) && Lists(out, All(o))
    ensures RecordOptions(out).flags == o.flags && forall x <- All(o) :: Satisfied(RecordOptions(out), x)
  {
    MergedDistinct(o, out);
    RecordTidy(out);
    hide Tidy, Has, Key, Satisfied, RecordOptions, TidyOptions, FlagKeys;
  }

  /** What a mount record shows of options merged over a well-formed base: exactly the base's and the
      caller's bare flags and the mode, and every accepted option. */
  lemma RecordedMerge(base: seq<string>, flags: seq<string>, clean: seq<string>, readOnly: bool, out: seq<string>)
    requires (forall x <- base :: Tidy(x)) && Sanitizes(flags, Ok(clean))
             && Lists(out, All(Merged(base, clean, readOnly)))
    ensures var st := RecordOptions(out);
            && st.flags == WithMode(Options(FlagKeys(base) + FlagKeys(clean), map[]), readOnly).flags
            && (forall n <- clean :: Satisfied(st, n))
  {
    NormalIsTidy(flags, clean);
    MergedTidy(base, clean, readOnly);
    RecordedOptions(Merged(base, clean, readOnly), out);
    ReservedModes();
    hide Tidy, Key, ValidItem, RecordOptions, Satisfied, Sanitizes, FlagKeys, TidyOptions, Merged, Lists, WithMode;
    forall n | n in clean ensures Satisfied(RecordOptions(out), n) {
      CleanSurvives(AddAll(Options({}, map[]), base), clean, readOnly, n);
      assert n in All(Merged(base, clean, readOnly)) by { MergedIs(base, clean, readOnly); }
    }
  }

  lemma MergedIs(base: seq<string>, clean: seq<string>, readOnly: bool)
    ensures Merged(base, clean, readOnly) == WithMode(AddAll(AddAll(Options({}, map[]), base), clean), readOnly)
  {
  }

  /** A base value that the flags do not override is recorded. */
  lemma RecordedBase(base: seq<string>, flags: seq<string>, clean: seq<string>, readOnly: bool, out: seq<string>,
      x: string)
    requires (forall y <- base :: Tidy(y)) && DistinctValues(base) && Sanitizes(flags, Ok(clean))
    requires Lists(out, All(Merged(base, clean, readOnly)))
    requires x in base && Has(x, '=') && forall n <- clean :: Key(n) != Key(x)
    ensures Satisfied(RecordOptions(out), x)
  {
    NormalIsTidy(flags, clean);
    MergedTidy(base, clean, readOnly);
    RecordedOptions(Merged(base, clean, readOnly), out);
    ValueAdded(Options({}, map[]), base, x);
    ValueKept(AddAll(Options({}, map[]), base), clean, Key(x));
    hide Tidy, Has, Key, RecordOptions, Satisfied, Sanitizes, TidyOptions, AddAll, Lists;
    assert x in Merged(base, clean, readOnly).values.Values;
  }

  lemma CleanSurvives(under: Options, clean: seq<string>, readOnly: bool, n: string)
    requires (forall x, y | x in clean && y in clean && Key(x) == Key(y) :: x == y)
    requires n in clean && Tidy(n) && n != "ro" && n != "rw"
    ensures n in All(WithMode(AddAll(under, clean), readOnly))
  {
    AddAllFlags(under, clean);
    if Has(n, '=') {
      ValueAdded(under, clean, n);
      assert n in AddAll(under, clean).values.Values;
    } else {
      TidyFlag(n);
      assert n in FlagKeys(clean);
    }
    hide Tidy, Has, Key, AddAll;
  }

  predicate ValidVolume(v: Volume) {
    v.proto.Nfs? ==> v.nfsVersion in {"", "3", "4.1"}
  }

  /** A well-formed list with these bare flags and these keys of valued options. */
  ghost predicate Shape(options: seq<string>, flags: set<string>, keys: set<string>) {
    && (forall x <- options :: Tidy(x) && (Has(x, '=') ==> Key(x) in keys))
    && DistinctValues(options) && FlagKeys(options) == flags
  }

  lemma ShapeFlag(options: seq<string>, flags: set<string>, keys: set<string>, word: string)
    requires Shape(options, flags, keys) && Word(word)
    ensures Shape(options + [word], flags + {word}, keys)
  {
    WordFacts(word);
    hide Tidy, Has, Key, Word;
    assert FlagKeys(options + [word]) == FlagKeys(options) + {word};
  }

  lemma ShapeValue(options: seq<string>, flags: set<string>, keys: set<string>, key: string, value: string)
    requires Shape(options, flags, keys) && key !in keys
    requires Word(key) && PlainValue(value)
    ensures Shape(options + [Valued(key, value)], flags, keys + {key})
  {
    ValuedFacts(key, value);
    hide Tidy, Has, Key, Word, Valued;
    assert FlagKeys(options + [Valued(key, value)]) == FlagKeys(options);
  }

  lemma Words()
    ensures Word("vers") && Word("sec") && Word("hard") && Word("timeo") && Word("retrans") && Word("nodev")
            && Word("nosuid") && Word("nolock") && Word("nosharesock") && Word("actimeo") && Word("seal")
            && Word("credentials")
  {
  }

  lemma NfsShape(vers: string, version: string, sec: string, sys: string, hard: string, timeo: string, t: string,
                 retrans: string, n: string, nodev: string, nosuid: string)
    requires Word(vers) && Word(sec) && Word(hard) && Word(timeo) && Word(retrans) && Word(nodev) && Word(nosuid)
    requires PlainValue(version) && PlainValue(sys) && PlainValue(t) && PlainValue(n)
    requires sec != vers && timeo != vers && timeo != sec && retrans != vers && retrans != sec && retrans != timeo
    ensures Shape([Valued(vers, version)] + [Valued(sec, sys)] + [hard] + [Valued(timeo, t)] + [Valued(retrans, n)]
            + [nodev] + [nosuid],
                  {hard, nodev, nosuid}, {vers, sec, timeo, retrans})
  {
    assert Shape([], {}, {});
    hide Shape, Word, Valued, PlainValue;
    ShapeValue([], {}, {}, vers, version);
    var b1 := [Valued(vers, version)];
    assert [] + b1 == b1;
    ShapeValue(b1, {}, {vers}, sec, sys);
    var b2 := b1 + [Valued(sec, sys)];
    ShapeFlag(b2, {}, {vers, sec}, hard);
    NfsShapeTail(b2 + [hard], {hard}, {vers, sec}, timeo, t, retrans, n, nodev, nosuid);
    assert {vers, sec} + {timeo, retrans} == {vers, sec, timeo, retrans};
    assert {hard} + {nodev, nosuid} == {hard, nodev, nosuid};
  }

  lemma NfsShapeTail(base: seq<string>, flags: set<string>, keys: set<string>, timeo: string, t: string,
                     retrans: string, n: string, nodev: string, nosuid: string)
    requires Shape(base, flags, keys)
    requires Word(timeo) && Word(retrans) && Word(nodev) && Word(nosuid) && PlainValue(t) && PlainValue(n)
    requires timeo !in keys && retrans !in keys && timeo != retrans
    ensures Shape(base + [Valued(timeo, t)] + [Valued(retrans, n)] + [nodev] + [nosuid], flags + {nodev, nosuid},
            keys + {timeo, retrans})
  {
    hide Shape, Word, Valued, PlainValue;
    ShapeValue(base, flags, keys, timeo, t);
    var b4 := base + [Valued(timeo, t)];
    ShapeValue(b4, flags, keys + {timeo}, retrans, n);
    var b5 := b4 + [Valued(retrans, n)];
    var all := keys + {timeo} + {retrans};
    ShapeFlag(b5, flags, all, nodev);
    ShapeFlag(b5 + [nodev], flags + {nodev}, all, nosuid);
    assert flags + {nodev} + {nosuid} == flags + {nodev, nosuid} && all == keys + {timeo, retrans};
  }

  lemma SmbShape(vers: string, version: string, nosharesock: string, actimeo: string, t: string, nodev: string,
      nosuid: string)
    requires Word(vers) && Word(nosharesock) && Word(actimeo) && Word(nodev) && Word(nosuid)
    requires PlainValue(version) && PlainValue(t) && actimeo != vers
    ensures Shape([Valued(vers, version)] + [nosharesock] + [Valued(actimeo, t)] + [nodev] + [nosuid],
                  {nosharesock, nodev, nosuid}, {vers, actimeo})
  {
    assert Shape([], {}, {});
    hide Shape, Word, Valued, PlainValue;
    ShapeValue([], {}, {}, vers, version);
    var b1 := [Valued(vers, version)];
    assert [] + b1 == b1;
    SmbShapeTail(b1, vers, nosharesock, actimeo, t, nodev, nosuid);
  }

  lemma SmbShapeTail(base: seq<string>, vers: string, nosharesock: string, actimeo: string, t: string, nodev: string,
      nosuid: string)
    requires Shape(base, {}, {vers})
    requires Word(nosharesock) && Word(actimeo) && Word(nodev) && Word(nosuid) && PlainValue(t) && actimeo != vers
    ensures Shape(base + [nosharesock] + [Valued(actimeo, t)] + [nodev] + [nosuid], {nosharesock, nodev, nosuid},
            {vers, actimeo})
  {
    assert {} + {nosharesock} == {nosharesock} && {vers} + {actimeo} == {vers, actimeo};
    assert {nosharesock} + {nodev} == {nosharesock, nodev}
           && {nosharesock, nodev} + {nosuid} == {nosharesock, nodev, nosuid};
    hide Shape, Word, Valued, PlainValue;
    ShapeFlag(base, {}, {vers}, nosharesock);
    var b2 := base + [nosharesock];
    ShapeValue(b2, {nosharesock}, {vers}, actimeo, t);
    var b3 := b2 + [Valued(actimeo, t)];
    ShapeFlag(b3, {nosharesock}, {vers, actimeo}, nodev);
    ShapeFlag(b3 + [nodev], {nosharesock, nodev}, {vers, actimeo}, nosuid);
  }

  lemma NfsCommonShape(version: string)
    requires PlainValue(version)
    ensures Shape(NfsCommon(version), {"hard", "nodev", "nosuid"}, {"vers", "sec", "timeo", "retrans"})
  {
    Words();
    hide Shape, Word, Valued;
    NfsShape("vers", version, "sec", "sys", "hard", "timeo", "600", "retrans", "2", "nodev", "nosuid");
  }

  lemma SmbCommonShape()
    ensures Shape(SmbCommon(), {"nosharesock", "nodev", "nosuid"}, {"vers", "actimeo"})
  {
    Words();
    hide Shape, Word, Valued;
    SmbShape("vers", "3.1.1", "nosharesock", "actimeo", "30", "nodev", "nosuid");
  }

  function BaseFlags(v: Volume): set<string> {
    match v.proto
    case Nfs => {"hard", "nodev", "nosuid"} + (if Version(v) == "3" then {"nolock"} else {})
    case Smb => {"nosharesock", "nodev", "nosuid"} + (if v.encrypted then {"seal"} else {})
  }

  /** The shape of the base, whatever the volume. */
  lemma BaseShape(v: Volume, credentials: string)
    requires ValidVolume(v) && (v.proto.Smb? ==> PlainValue(credentials))
    ensures var base := Base(v, credentials);
            && (forall x <- base :: Tidy(x)) && DistinctValues(base)
            && FlagKeys(base) == BaseFlags(v)
  {
    Words();
    hide Word, Valued, Tidy, Has, Key, DistinctValues, FlagKeys, NfsCommon, SmbCommon;
    match v.proto
    case Nfs =>
      assert Version(v) == "3" || Version(v) == "4.1";
      NfsCommonShape(Version(v));
      if Version(v) == "3" {
        ShapeFlag(NfsCommon("3"), {"hard", "nodev", "nosuid"}, {"vers", "sec", "timeo", "retrans"}, "nolock");
      }
    case Smb =>
      SmbCommonShape();
      var flags := {"nosharesock", "nodev", "nosuid"};
      if v.encrypted {
        ShapeFlag(SmbCommon(), flags, {"vers", "actimeo"}, "seal");
        ShapeValue(SmbCommon() + ["seal"], flags + {"seal"}, {"vers", "actimeo"}, "credentials", credentials);
      } else {
        ShapeValue(SmbCommon(), flags, {"vers", "actimeo"}, "credentials", credentials);
      }
  }

  lemma NfsMembers(version: string)
    ensures var base := NfsCommon(version);
            && Valued("vers", version) in base && Valued("sec", "sys") in base
            && Valued("timeo", "600") in base && Valued("retrans", "2") in base
  {
    hide Valued;
    var b1 := [Valued("vers", version)];
    var b2 := b1 + [Valued("sec", "sys")];
    var b4 := b2 + ["hard"] + [Valued("timeo", "600")];
    var b5 := b4 + [Valued("retrans", "2")];
    assert b1[0] == Valued("vers", version) && b2[1] == Valued("sec", "sys");
    assert Valued("timeo", "600") in b4 && Valued("retrans", "2") in b5;
  }

  /** The record of a mount made for `v` with these options. */
  predicate RecordsMount(r: Record, v: Volume, options: seq<string>) {
    && r.source == v.source && r.fsType == ExpectedFSType(v) && r.root == "/"
    && r.options == options && (r.mountOptions == [] || r.mountOptions == options)
  }

  /** `out` lists the options of a mount that a publish request for `flags` makes over `base`. */
  ghost predicate MountedWith(v: Volume, base: seq<string>, flags: seq<string>, clean: seq<string>, readOnly: bool,
      out: seq<string>) {
    && (forall x <- base :: Tidy(x)) && DistinctValues(base)
    && Sanitizes(flags, Ok(clean)) && Lists(out, All(Merged(base, clean, readOnly)))
    && (forall n <- clean :: !Reserved(Key(n)) && !Controlled(v.proto, Key(n)))
  }

  lemma CleanKeys(v: Volume, flags: seq<string>, clean: seq<string>)
    requires PublishAccepts(v, flags) && Sanitizes(flags, Ok(clean))
    ensures forall n <- clean :: !Reserved(Key(n)) && !Controlled(v.proto, Key(n))
  {
    AcceptedIsCoherent(flags, clean);
    SanitizedElements(flags, clean);
    forall n | n in clean ensures !Controlled(v.proto, Key(n)) {
      var a :| a in Items(flags) && Normal(a) == n;
      NormalKeepsKey(a);
    }
    hide Reserved, ControlledPrefix, Accepted, Items, Key, Normal, Sanitizes;
  }

  lemma DriverValueRecorded(v: Volume, base: seq<string>, flags: seq<string>, clean: seq<string>, readOnly: bool,
      out: seq<string>,
                            key: string, value: string, alias: string)
    requires MountedWith(v, base, flags, clean, readOnly, out) && Word(key) && PlainValue(value)
    requires Valued(key, value) in base && (Reserved(key) || Controlled(v.proto, key))
    ensures HasValue(RecordOptions(out), value, key, alias)
  {
    ValuedFacts(key, value);
    hide Reserved, Controlled, Valued, Word, Tidy, Has, Key, DistinctValues, Sanitizes, Lists, Merged;
    assert forall n <- clean :: Key(n) != key;
    RecordedBase(base, flags, clean, readOnly, out, Valued(key, value));
    hide RecordOptions, EqualFold, After;
    assert EqualFold(value, value) by { EqualFoldReflexive(value); }
  }

  lemma EqualFoldReflexive(s: string)
    ensures EqualFold(s, s)
  {
  }

  /** Bare flags on record: the driver's and the caller's, never a reserved one, and the mode. */
  lemma FlagsRecorded(v: Volume, base: seq<string>, flags: seq<string>, clean: seq<string>, readOnly: bool,
      out: seq<string>, f: string)
    requires MountedWith(v, base, flags, clean, readOnly, out)
    ensures !IsMode(f) && f in FlagKeys(base) ==> f in RecordOptions(out).flags
    ensures !IsMode(f) && Reserved(f) && f !in FlagKeys(base) ==> f !in RecordOptions(out).flags
    ensures "ro" in RecordOptions(out).flags <==> readOnly
    ensures "rw" in RecordOptions(out).flags <==> !readOnly
  {
    hide Reserved, Controlled, Tidy, Has, Key, DistinctValues, Sanitizes, Lists, Merged, RecordOptions, Satisfied;
    RecordedMerge(base, flags, clean, readOnly, out);
    assert "ro" != "rw";
    assert f in FlagKeys(clean) ==> !Reserved(f);
    hide FlagKeys;
  }

  lemma ReservedNames()
    ensures Reserved("vers") && Reserved("sec") && Reserved("soft") && Reserved("softerr")
  {
  }

  lemma FlagNames(v: Volume)
    ensures !IsMode("nodev") && !IsMode("nosuid") && !IsMode("hard") && !IsMode("soft") && !IsMode("softerr")
            && !IsMode("seal")
    ensures "nodev" in BaseFlags(v) && "nosuid" in BaseFlags(v)
    ensures v.proto.Nfs? ==> "hard" in BaseFlags(v) && "soft" !in BaseFlags(v) && "softerr" !in BaseFlags(v)
    ensures v.proto.Smb? && v.encrypted ==> "seal" in BaseFlags(v)
  {
    hide Version;
  }

  lemma SmbRequired(v: Volume, credentials: string, flags: seq<string>, clean: seq<string>, readOnly: bool,
      out: seq<string>)
    requires v.proto.Smb? && PlainValue(credentials)
    requires MountedWith(v, Base(v, credentials), flags, clean, readOnly, out)
    ensures RequiredOptions(v, RecordOptions(out))
  {
    var base := Base(v, credentials);
    BaseShape(v, credentials);
    ReservedNames();
    FlagNames(v);
    Words();
    assert Valued("vers", "3.1.1") in base by {
      hide Valued;
      assert base[0] == Valued("vers", "3.1.1");
    }
    hide BaseFlags, Base, MountedWith, RecordOptions, FlagKeys, IsMode, Reserved, Word, Valued, HasValue,
         DistinctValues, Tidy;
    DriverValueRecorded(v, base, flags, clean, readOnly, out, "vers", "3.1.1", "version");
    FlagsRecorded(v, base, flags, clean, readOnly, out, "nodev");
    FlagsRecorded(v, base, flags, clean, readOnly, out, "nosuid");
    FlagsRecorded(v, base, flags, clean, readOnly, out, "seal");
  }

  lemma NfsValueRecorded(v: Volume, base: seq<string>, flags: seq<string>, clean: seq<string>, readOnly: bool,
      out: seq<string>,
                         key: string, value: string, alias: string)
    requires v.proto.Nfs? && NfsCommon(Version(v)) <= base && PlainValue(value)
    requires MountedWith(v, base, flags, clean, readOnly, out)
    requires (key == "vers" && value == Version(v)) || (key == "sec" && value == "sys")
             || (key == "timeo" && value == "600") || (key == "retrans" && value == "2")
    ensures HasValue(RecordOptions(out), value, key, alias)
  {
    assert Word(key) && (Reserved(key) || Controlled(v.proto, key)) by { ReservedNames(); Words(); }
    hide MountedWith, RecordOptions, Reserved, Word, HasValue, Version, IsMode, Controlled, PlainValue;
    assert Valued(key, value) in base by { NfsMembers(Version(v)); hide NfsCommon; }
    hide NfsCommon, Valued;
    DriverValueRecorded(v, base, flags, clean, readOnly, out, key, value, alias);
  }

  lemma PlainValues(v: Volume)
    requires v.proto.Nfs? && ValidVolume(v)
    ensures PlainValue(Version(v)) && PlainValue("sys") && PlainValue("600") && PlainValue("2")
  {
  }

  lemma NfsCommonInBase(v: Volume)
    requires v.proto.Nfs?
    ensures NfsCommon(Version(v)) <= Base(v, "")
  {
    hide NfsCommon;
  }

  lemma NfsRequired(v: Volume, flags: seq<string>, clean: seq<string>, readOnly: bool, out: seq<string>)
    requires v.proto.Nfs? && ValidVolume(v)
    requires MountedWith(v, Base(v, ""), flags, clean, readOnly, out)
    ensures RequiredOptions(v, RecordOptions(out))
  {
    var base, st := Base(v, ""), RecordOptions(out);
    NfsCommonInBase(v);
    PlainValues(v);
    BaseShape(v, "");
    FlagNames(v);
    ReservedNames();
    hide BaseFlags, NfsCommon, MountedWith, RecordOptions, IsMode, Reserved, Valued, HasValue, Base, Version, FlagKeys,
         PlainValue, Tidy, DistinctValues;
    assert HasValue(st, Version(v), "vers", "nfsvers")
           by { NfsValueRecorded(v, base, flags, clean, readOnly, out, "vers", Version(v), "nfsvers"); }
    assert HasValue(st, "sys", "sec", "security")
           by { NfsValueRecorded(v, base, flags, clean, readOnly, out, "sec", "sys", "security"); }
    assert HasValue(st, "600", "timeo", "timeo")
           by { NfsValueRecorded(v, base, flags, clean, readOnly, out, "timeo", "600", "timeo"); }
    assert HasValue(st, "2", "retrans", "retrans")
           by { NfsValueRecorded(v, base, flags, clean, readOnly, out, "retrans", "2", "retrans"); }
    assert "nodev" in st.flags by { FlagsRecorded(v, base, flags, clean, readOnly, out, "nodev"); }
    assert "nosuid" in st.flags by { FlagsRecorded(v, base, flags, clean, readOnly, out, "nosuid"); }
    assert "hard" in st.flags by { FlagsRecorded(v, base, flags, clean, readOnly, out, "hard"); }
    assert "soft" !in st.flags by { FlagsRecorded(v, base, flags, clean, readOnly, out, "soft"); }
    assert "softerr" !in st.flags by { FlagsRecorded(v, base, flags, clean, readOnly, out, "softerr"); }
  }

  lemma MountedIdentity(v: Volume, r: Record)
    requires r.source == v.source && r.fsType == ExpectedFSType(v) && r.root == "/"
    ensures SameIdentity(v, r)
  {
    TrimSpaceTrims(r.fsType);
    EqualFoldReflexive(r.fsType);
    EqualFoldReflexive(TrimSlashes(r.source));
    assert Trimmed("nfs") && Trimmed("nfs4") && Trimmed("cifs");
    hide TrimSlashes, TrimSpace, EqualFold;
  }

  /** For every volume, mode and accepted flag list: the options the driver mounts with, recorded as
      given, are recognised by a repetition of the request and rejected for the opposite mode. */
  lemma PublishVerifyRoundTrip(v: Volume, credentials: string, flags: seq<string>, readOnly: bool, out: seq<string>,
      r: Record)
    requires ValidVolume(v) && (v.proto.Smb? ==> PlainValue(credentials)) && PublishAccepts(v, flags)
    requires Merges(Base(v, credentials), flags, readOnly, Ok(out)) && RecordsMount(r, v, out)
    ensures MountMatches(v, r, readOnly, flags)
    ensures !MountMatches(v, r, !readOnly, flags)
  {
    var base := Base(v, credentials);
    var clean :| Sanitizes(flags, Ok(clean)) && Lists(out, All(Merged(base, clean, readOnly)));
    BaseShape(v, credentials);
    CleanKeys(v, flags, clean);
    assert MountedWith(v, base, flags, clean, readOnly, out);
    if v.proto.Smb? {
      SmbRequired(v, credentials, flags, clean, readOnly, out);
    } else {
      assert base == Base(v, "");
      NfsRequired(v, flags, clean, readOnly, out);
    }
    FlagsRecorded(v, base, flags, clean, readOnly, out, "nodev");
    RecordedMerge(base, flags, clean, readOnly, out);
    SanitizedElements(flags, clean);
    MountedIdentity(v, r);
    assert Accepted(Items(flags));
    hide Base, Sanitizes, Lists, Merged, Items, Normals, Accepted, Tidy, Has, Key, DistinctValues, FlagKeys,
         RecordOptions, Satisfied, RequiredOptions, MountedWith, SameIdentity, WithMode;
  }

  // ---------------------------------------------------------------- what a record has to say

  lemma {:induction false} FlagsOfItems(st: Options, items: seq<string>, f: string)
    ensures f in RecordAll(st, items).flags
            <==> f in st.flags || exists p <- items :: BareItem(p, f)
    decreases |items|
  {
    if items != [] {
      var front, last := items[..|items| - 1], items[|items| - 1];
      assert items == front + [last];
      FlagsOfItems(st, front, f);
      hide TrimSpace, Before, Has, ValidKey;
      assert f in RecordItem(RecordAll(st, front), last).flags
             <==> f in RecordAll(st, front).flags || BareItem(last, f);
      hide BareItem, RecordItem;
    }
  }

  /** The item is a legal flag of this name, up to spaces around it and case. */
  predicate BareItem(item: string, f: string) {
    var x := TrimSpace(item);
    x != "" && !Has(x, '=') && ValidKey(Before(x, '=')) && Key(x) == f
  }

  /** A flag is on record exactly if some item of some list names it. */
  lemma {:induction false} FlagOnRecord(options: seq<string>, f: string)
    ensures f in RecordOptions(options).flags <==> exists o <- options :: Names(o, f)
    decreases |options|
  {
    if options != [] {
      var front, last := options[..|options| - 1], options[|options| - 1];
      assert options == front + [last];
      FlagOnRecord(front, f);
      FlagsOfItems(RecordOptions(front), Split(last, ','), f);
      assert f in RecordOptions(options).flags <==> f in RecordOptions(front).flags || Names(last, f);
      hide Names, RecordOptions;
    }
  }

  /** Some item of the list is a legal flag of this name. */
  predicate Names(list: string, f: string) {
    exists p <- Split(list, ',') :: BareItem(p, f)
  }

  /** The last item decides what value is on record for its key. */
  lemma LastValueCounts(options: seq<string>, list: string, key: string, value: string)
    requires Word(key) && PlainValue(value)
    ensures var st := RecordOptions(options + [list + "," + key + "=" + value]);
            key in st.values && st.values[key] == value
  {
    var item := key + "=" + value;
    var all := options + [list + "," + item];
    ValuedFacts(key, value);
    TrimSpaceTrims(item);
    assert list + "," + key + "=" + value == list + [','] + item;
    SplitJoined(list, item, ',');
    IndexIs(item, ',', |item|);
    assert Split(item, ',') == [item];
    var items := Split(list, ',') + [item];
    assert items[..|items| - 1] == Split(list, ',') && all[..|all| - 1] == options;
    hide TrimSpace, Split, Key, Has;
    assert RecordOptions(all) == RecordItem(RecordAll(RecordOptions(options), Split(list, ',')), item);
  }

  /** Everything a record has to show for the mount to pass as the requested one, by name; the historical
      second names of the values count as well. */
  lemma MountMatchesIff(v: Volume, r: Record, readOnly: bool, requested: seq<string>)
    ensures MountMatches(v, r, readOnly, requested) <==>
              var st := RecordOptions(r.options);
              var mode := RecordOptions(if r.mountOptions == [] then r.options else r.mountOptions).flags;
              && r.root == "/" && {"nodev", "nosuid"} <= st.flags
              && (if readOnly then "ro" in mode && "rw" !in mode else "rw" in mode && "ro" !in mode)
              && EqualFold(TrimSpace(r.fsType), if v.proto.Smb? then "cifs" else if v.nfsVersion == "3" then "nfs"
                  else "nfs4")
              && (v.proto.Smb? ==>
                    && EqualFold(TrimSlashes(r.source), TrimSlashes(v.source)) && (v.encrypted ==> "seal" in st.flags)
                    && Shows(st, {"vers", "version"}, "3.1.1"))
              && (v.proto.Nfs? ==>
                    && r.source == v.source && "hard" in st.flags && {"soft", "softerr"} !! st.flags
                    && Shows(st, {"timeo"}, "600") && Shows(st, {"retrans"}, "2")
                    && Shows(st, {"sec", "security"}, "sys")
                    && Shows(st, {"vers", "nfsvers"}, if v.nfsVersion == "" then "4.1" else v.nfsVersion))
              && RequestedOptions(st, requested)
  {
    hide RecordOptions, EqualFold, TrimSpace, TrimSlashes, RequestedOptions;
  }

  /** One of these keys is on record with this value, up to case. */
  predicate Shows(st: Options, keys: set<string>, value: string) {
    exists key | key in keys && key in st.values :: EqualFold(st.values[key], value)
  }

  /** Nor may an option the request asks for be missing or have another value. */
  lemma MatchHasRequested(v: Volume, r: Record, readOnly: bool, requested: seq<string>, item: string)
    requires MountMatches(v, r, readOnly, requested) && item in Items(requested)
    ensures var st, key := RecordOptions(r.options), ToLower(Before(item, '='));
            if Has(item, '=') then key in st.values && st.values[key] == After(item, '=') else key in st.flags
  {
    NormalKeepsKey(item);
    hide RecordOptions, SameIdentity, RequiredOptions, Items, Accepted, Normal, Has, After, Before;
    assert Normal(item) in Normals(Items(requested));
  }

  /** The number and spacing of NFS retries are the driver's own, and only those. */
  lemma RetriesAreTheDrivers(v: Volume, flags: seq<string>)
    ensures PublishAccepts(v, flags) <==>
              Accepted(Items(flags))
              && (v.proto == Nfs ==> forall a <- Items(flags) :: ToLower(Before(a, '=')) !in {"timeo", "retrans"})
  {
    hide Accepted, Items, ToLower, Before;
  }
}
