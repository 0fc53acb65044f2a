/** What a publish request is remembered by: its arguments in canonical form.

    The digest of the canonical form is taken as injective, so the form itself stands for it. */
module PublishFingerprint {
  import opened Text
  import opened MountOptions
  import opened Wrappers

  datatype Request = Request(
    volumeId: string, stagingPath: string, fsType: string, accessMode: int, mountFlags: seq<string>,
    readOnly: bool, publishContext: map<string, string>, volumeContext: map<string, string>)

  datatype Fingerprint = Fingerprint(
    volumeId: string, stagingPath: string, fsType: string, accessMode: int, mountFlags: seq<string>,
    readOnly: bool, publishContext: seq<string>, volumeContext: seq<string>)

  /** Alternating keys and values, the keys in strictly ascending order. */
  ghost predicate Entries(values: map<string, string>, keys: seq<string>, out: seq<string>) {
    && Lists(keys, values.Keys) && |out| == 2 * |keys|
    && forall i | 0 <= i < |keys| :: keys[i] in values && out[2 * i] == keys[i] && out[2 * i + 1] == values[keys[i]]
  }

  method CanonicalMapEntries(values: map<string, string>) returns (out: seq<string>)
    ensures exists keys :: Entries(values, keys, out)
  {
    var keys := Sorted(values.Keys);
    out := [];
    for n := 0 to |keys|
      invariant |out| == 2 * n
      invariant forall i | 0 <= i < n :: keys[i] in values && out[2 * i] == keys[i] && out[2 * i + 1] == values[keys[i]]
    {
      assert keys[n] in keys;
      out := out + [keys[n], values[keys[n]]];
    }
    assert Entries(values, keys, out);
  }

  /** The entry list determines the map and the map the entry list. */
  lemma EntriesDetermineMap(a: map<string, string>, b: map<string, string>, ka: seq<string>, kb: seq<string>,
                            outA: seq<string>, outB: seq<string>)
    requires Entries(a, ka, outA) && Entries(b, kb, outB)
    ensures outA == outB <==> a == b
  {
    if a == b {
      ListingIsUnique(ka, kb, a.Keys);
      forall i | 0 <= i < |outA| ensures outA[i] == outB[i] {
        var j := i / 2;
        assert 0 <= j < |ka| && (i == 2 * j || i == 2 * j + 1);
        assert outA[2 * j] == ka[j] && outA[2 * j + 1] == a[ka[j]];
        assert outB[2 * j] == kb[j] && outB[2 * j + 1] == b[kb[j]];
      }
    }
    if outA == outB {
      forall i | 0 <= i < |ka| ensures ka[i] == kb[i] && a[ka[i]] == b[kb[i]] {
        assert outA[2 * i] == outB[2 * i] && outA[2 * i + 1] == outB[2 * i + 1];
      }
      assert ka == kb;
      forall k ensures k in a <==> k in b {
        assert k in a.Keys <==> k in ka;
        assert k in b.Keys <==> k in kb;
      }
      forall k | k in a ensures a[k] == b[k] {
        assert k in ka;
        var i :| 0 <= i < |ka| && ka[i] == k;
      }
    }
  }

  ghost predicate FingerprintOf(q: Request, r: Result<Fingerprint>) {
    && (r.Ok? <==> Accepted(Items(q.mountFlags)))
    && (r.Ok? ==>
          && r.value == Fingerprint(q.volumeId, q.stagingPath, ToLower(TrimSpace(q.fsType)), q.accessMode,
              r.value.mountFlags,
                                    q.readOnly, r.value.publishContext, r.value.volumeContext)
          && Sanitizes(q.mountFlags, Ok(r.value.mountFlags))
          && (exists keys :: Entries(q.publishContext, keys, r.value.publishContext))
          && (exists keys :: Entries(q.volumeContext, keys, r.value.volumeContext)))
  }

  method NodePublishFingerprint(q: Request) returns (r: Result<Fingerprint>)
    ensures FingerprintOf(q, r)
  {
    var flags := SanitizedMountFlags(q.mountFlags);
    if flags.Err? { return Err; }
    var publish := CanonicalMapEntries(q.publishContext);
    var volume := CanonicalMapEntries(q.volumeContext);
    return Ok(Fingerprint(q.volumeId, q.stagingPath, ToLower(TrimSpace(q.fsType)), q.accessMode, flags.value,
           q.readOnly, publish, volume));
  }

  /** Two requests ask for the same thing: equal but for the spelling of the flag list and filesystem type. */
  predicate SameRequest(a: Request, b: Request) {
    && a.volumeId == b.volumeId && a.stagingPath == b.stagingPath && a.accessMode == b.accessMode
    && a.readOnly == b.readOnly
    && ToLower(TrimSpace(a.fsType)) == ToLower(TrimSpace(b.fsType))
    && Normals(Items(a.mountFlags)) == Normals(Items(b.mountFlags))
    && a.publishContext == b.publishContext && a.volumeContext == b.volumeContext
  }

  /** Two accepted requests have the same fingerprint exactly when they ask for the same thing. */
  lemma SameFingerprintIff(a: Request, b: Request, fa: Fingerprint, fb: Fingerprint)
    requires FingerprintOf(a, Ok(fa)) && FingerprintOf(b, Ok(fb))
    ensures fa == fb <==> SameRequest(a, b)
  {
    var pa :| Entries(a.publishContext, pa, fa.publishContext);
    var pb :| Entries(b.publishContext, pb, fb.publishContext);
    var va :| Entries(a.volumeContext, va, fa.volumeContext);
    var vb :| Entries(b.volumeContext, vb, fb.volumeContext);
    EntriesDetermineMap(a.publishContext, b.publishContext, pa, pb, fa.publishContext, fb.publishContext);
    EntriesDetermineMap(a.volumeContext, b.volumeContext, va, vb, fa.volumeContext, fb.volumeContext);
    SameListingIff(a.mountFlags, b.mountFlags, fa.mountFlags, fb.mountFlags);
    hide Entries, Sanitizes, Items, Normals, Accepted, ToLower, TrimSpace;
  }

  lemma SameListingIff(a: seq<string>, b: seq<string>, fa: seq<string>, fb: seq<string>)
    requires Sanitizes(a, Ok(fa)) && Sanitizes(b, Ok(fb))
    ensures fa == fb <==> Normals(Items(a)) == Normals(Items(b))
  {
    hide Items, Normals, Accepted;
    if Normals(Items(a)) == Normals(Items(b)) { ListingIsUnique(fa, fb, Normals(Items(a))); }
    if fa == fb {
      assert forall x :: x in fa <==> x in Normals(Items(a));
      assert forall x :: x in fb <==> x in Normals(Items(b));
      hide Lists;
    }
  }
}
